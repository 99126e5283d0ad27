/**
 * The reduce scenarios of the transform's own tests, at the level of one
 * bucket: the events are any log events carrying the field values the tests
 * give them (other fields may be present), and the conclusions are about any
 * event a flush of the bucket can produce.
 */
module ReduceExamples {
  import opened Base
  import opened Lookup
  import opened Values
  import opened Mergers
  import opened Reduce

  /** Two later values, as `ValuesOf` lists them. */
  lemma ValuesOfPair(a: Fields, b: Fields, n: string, x: Value, y: Value)
    requires Find(a, n) == Some(x) && Find(b, n) == Some(y)
    ensures ValuesOf([a, b], n) == [x, y]
  {
    assert [a, b][..1] == [a];
    ValuesOfOne(a, n, x);
    assert Found(b, n) == [y];
  }

  /** Both later events are sorted, as the general lemmas ask of every later event. */
  lemma SortedPair(a: Fields, b: Fields)
    requires Sorted(a) && Sorted(b)
    ensures forall i :: 0 <= i < |[a, b]| ==> Sorted([a, b][i])
  {
    forall i | 0 <= i < |[a, b]| ensures Sorted([a, b][i]) {
      if i == 0 { assert [a, b][i] == a; } else { assert [a, b][i] == b; }
    }
  }

  lemma ValuesOfOne(a: Fields, n: string, x: Value)
    requires Find(a, n) == Some(x)
    ensures ValuesOf([a], n) == [x]
  {
    assert [a][..0] == [];
    assert Found(a, n) == [x];
  }

  /** A field of the first event with no strategy keeps its default merger's course. */
  lemma DefaultField(first: Fields, later: seq<Fields>, strategies: map<Key, Strategy>, n: string, event: Value)
    requires Sorted(first) && PlainNames(first) && Find(first, n).Some?
    requires [Field(n)] !in strategies
    requires forall i :: 0 <= i < |later| ==> Sorted(later[i])
    requires IsFlushOf(event, Reduced(first, later, strategies))
    ensures Get(event, [Field(n)]) == Some(Finalize(Feed(DefaultMerger(Find(first, n).value), ValuesOf(later, n))))
  {
    ReducedField(first, later, strategies, n);
    ReducedSingleFields(first, later, strategies);
    FlushedField(event, Reduced(first, later, strategies), n);
  }

  /** A field of the first event with a strategy that accepts its first value. */
  lemma StrategyField(first: Fields, later: seq<Fields>, strategies: map<Key, Strategy>, n: string, m0: Merger, event: Value)
    requires Sorted(first) && PlainNames(first) && Find(first, n).Some?
    requires [Field(n)] in strategies && GetValueMerger(Find(first, n).value, strategies[[Field(n)]]) == Ok(m0)
    requires forall i :: 0 <= i < |later| ==> Sorted(later[i])
    requires IsFlushOf(event, Reduced(first, later, strategies))
    ensures Get(event, [Field(n)]) == Some(Finalize(Feed(m0, ValuesOf(later, n))))
  {
    ReducedField(first, later, strategies, n);
    ReducedSingleFields(first, later, strategies);
    FlushedField(event, Reduced(first, later, strategies), n);
  }

  /** A configured field of the first event, fed the values two later events hold for it. */
  lemma PairStrategyField(e1: Fields, later: seq<Fields>, strategies: map<Key, Strategy>, n: string,
                          m0: Merger, x: Value, y: Value, event: Value)
    requires |later| == 2 && Sorted(e1) && Sorted(later[0]) && Sorted(later[1]) && PlainNames(e1) && Find(e1, n).Some?
    requires [Field(n)] in strategies && GetValueMerger(Find(e1, n).value, strategies[[Field(n)]]) == Ok(m0)
    requires Find(later[0], n) == Some(x) && Find(later[1], n) == Some(y)
    requires IsFlushOf(event, Reduced(e1, later, strategies))
    ensures Get(event, [Field(n)]) == Some(Finalize(Feed(m0, [x, y])))
  {
    assert later == [later[0], later[1]];
    SortedPair(later[0], later[1]);
    StrategyField(e1, later, strategies, n, m0, event);
    ValuesOfPair(later[0], later[1], n, x, y);
  }

  // ---------------------------------------------------------------------------
  // reduce_from_condition, and both buckets of missing_group_by

  /** In the first bucket, counters 1, 3 and 4 sum to 8. */
  lemma CounterBucketOne(e1: Fields, e3: Fields, e4: Fields, strategies: map<Key, Strategy>, event: Value)
    requires Sorted(e1) && Sorted(e3) && Sorted(e4) && PlainNames(e1)
    requires Find(e1, "counter") == Some(Integer(1))
    requires Find(e3, "counter") == Some(Integer(3))
    requires Find(e4, "counter") == Some(Integer(4))
    requires [Field("counter")] !in strategies
    requires IsFlushOf(event, Reduced(e1, [e3, e4], strategies))
    ensures Get(event, [Field("counter")]) == Some(Integer(8))
  {
    SortedPair(e3, e4);
    DefaultField(e1, [e3, e4], strategies, "counter", event);
    ValuesOfPair(e3, e4, "counter", Integer(3), Integer(4));
    FeedSum(1, [Integer(3), Integer(4)]);
  }

  /** A string field with no strategy keeps the bucket's first value, whatever follows. */
  lemma FirstMessageKept(first: Fields, later: seq<Fields>, strategies: map<Key, Strategy>, text: string, event: Value)
    requires Sorted(first) && PlainNames(first)
    requires forall i :: 0 <= i < |later| ==> Sorted(later[i])
    requires Find(first, "message") == Some(Bytes(text))
    requires [Field("message")] !in strategies
    requires IsFlushOf(event, Reduced(first, later, strategies))
    ensures Get(event, [Field("message")]) == Some(Bytes(text))
  {
    DefaultField(first, later, strategies, "message", event);
    FeedKeepFirst(Bytes(text), ValuesOf(later, "message"));
  }

  /** In the second bucket, counters 2 and 5 sum to 7. */
  lemma CounterBucketTwo(e2: Fields, e5: Fields, strategies: map<Key, Strategy>, event: Value)
    requires Sorted(e2) && Sorted(e5) && PlainNames(e2)
    requires Find(e2, "counter") == Some(Integer(2))
    requires Find(e5, "counter") == Some(Integer(5))
    requires [Field("counter")] !in strategies
    requires IsFlushOf(event, Reduced(e2, [e5], strategies))
    ensures Get(event, [Field("counter")]) == Some(Integer(7))
  {
    DefaultField(e2, [e5], strategies, "counter", event);
    ValuesOfOne(e5, "counter", Integer(5));
    FeedSum(2, [Integer(5)]);
  }

  /** A field only the closing event has is taken from it. */
  lemma ExtraFieldTaken(e2: Fields, e5: Fields, strategies: map<Key, Strategy>, event: Value)
    requires Sorted(e2) && Sorted(e5) && PlainNames(e2)
    requires Find(e2, "extra_field") == None && Find(e5, "extra_field") == Some(Bytes("value1"))
    requires [Field("extra_field")] !in strategies
    requires IsFlushOf(event, Reduced(e2, [e5], strategies))
    ensures Get(event, [Field("extra_field")]) == Some(Bytes("value1"))
  {
    LateField(e2, e5, strategies, "extra_field", Bytes("value1"));
    ReducedSingleFields(e2, [e5], strategies);
    FlushedField(event, Reduced(e2, [e5], strategies), "extra_field");
  }

  /** A field the first event lacks starts its merger with the later event that has it. */
  lemma LateField(first: Fields, e: Fields, strategies: map<Key, Strategy>, n: string, v: Value)
    requires Sorted(first) && Sorted(e) && PlainNames(first)
    requires Find(first, n) == None && Find(e, n) == Some(v) && [Field(n)] !in strategies
    ensures [Field(n)] in Reduced(first, [e], strategies)
    ensures Reduced(first, [e], strategies)[[Field(n)]] == DefaultMerger(v)
  {
    AbsentFromFirst(first, strategies, n);
    assert [e][..0] == [];
    AddFieldsByName(NewFields(first, strategies), e, strategies, n);
  }

  /** A plain name the first event lacks gets no merger when the bucket starts. */
  lemma AbsentFromFirst(first: Fields, strategies: map<Key, Strategy>, n: string)
    requires PlainNames(first) && Find(first, n) == None
    ensures [Field(n)] !in NewFields(first, strategies)
  {
    NewFieldsPerKey(first, strategies);
    forall j | 0 <= j < |first| ensures NewKey(first[j].key) != [Field(n)] {
      KeysAgreeOnPlainNames(first[j].key);
      KeyInKeys(first, j);
    }
  }

  /** Events without the `group_by` field all land in the one bucket keyed by its absence. */
  lemma MissingGroupBy(e2: Fields, e5: Fields)
    requires Find(e2, "request_id") == None && Find(e5, "request_id") == None
    ensures DiscriminantOf(e2, [[Field("request_id")]]) == [None]
    ensures DiscriminantOf(e5, [[Field("request_id")]]) == [None]
  {
    GetTopField(e2, "request_id");
    GetTopField(e5, "request_id");
  }

  // ---------------------------------------------------------------------------
  // reduce_merge_strategies and reduce_arrays
  //
  // The field names and texts of the tests ("foo", "first foo", "done", ...)
  // are parameters here: what is shown holds for any name and any text.

  /** Concatenated strings are joined by a space, and the integer is skipped. */
  lemma ConcatStrategy(e1: Fields, later: seq<Fields>, strategies: map<Key, Strategy>, n: string,
                       first: string, second: string, k: int, event: Value)
    requires [Field(n)] in strategies && strategies[[Field(n)]] == Concat
    requires |later| == 2 && Sorted(e1) && Sorted(later[0]) && Sorted(later[1]) && PlainNames(e1)
    requires Find(e1, n) == Some(Bytes(first))
    requires Find(later[0], n) == Some(Bytes(second))
    requires Find(later[1], n) == Some(Integer(k))
    requires IsFlushOf(event, Reduced(e1, later, strategies))
    ensures Get(event, [Field(n)]) == Some(Bytes(first + " " + second))
  {
    PairStrategyField(e1, later, strategies, n, ConcatBytes(first), Bytes(second), Integer(k), event);
    ConcatFed(first, second, k);
  }

  /** A concat merger fed a string and an integer. */
  lemma ConcatFed(first: string, second: string, k: int)
    ensures Finalize(Feed(ConcatBytes(first), [Bytes(second), Integer(k)])) == Bytes(first + " " + second)
  {
    FeedConcatBytes(first, [Bytes(second), Integer(k)]);
    SpacedPair(second, k);
    assert first + (" " + second) == first + " " + second;
  }

  lemma SpacedPair(text: string, k: int)
    ensures SpacedTexts([Bytes(text), Integer(k)]) == " " + text
  {
    assert [Bytes(text), Integer(k)][1..] == [Integer(k)];
    assert [Integer(k)][1..] == [];
    assert SpacedTexts([Integer(k)]) == "";
    assert " " + text + "" == " " + text;
  }

  /** The array strategy keeps all three values, whatever their kind. */
  lemma ArrayStrategy(e1: Fields, later: seq<Fields>, strategies: map<Key, Strategy>, n: string,
                      first: string, k: int, third: string, event: Value)
    requires [Field(n)] in strategies && strategies[[Field(n)]] == Strategy.Array
    requires |later| == 2 && Sorted(e1) && Sorted(later[0]) && Sorted(later[1]) && PlainNames(e1)
    requires Find(e1, n) == Some(Bytes(first))
    requires Find(later[0], n) == Some(Integer(k))
    requires Find(later[1], n) == Some(Bytes(third))
    requires IsFlushOf(event, Reduced(e1, later, strategies))
    ensures Get(event, [Field(n)]) == Some(Value.Array([Bytes(first), Integer(k), Bytes(third)]))
  {
    PairStrategyField(e1, later, strategies, n, Collect([Bytes(first)]), Integer(k), Bytes(third), event);
    CollectFed(Bytes(first), Integer(k), Bytes(third));
  }

  /** An array merger from x fed y and z holds all three, in order. */
  lemma CollectFed(x: Value, y: Value, z: Value)
    ensures Finalize(Feed(Collect([x]), [y, z])) == Value.Array([x, y, z])
  {
    FeedCollect([x], [y, z]);
    assert [x] + [y, z] == [x, y, z];
  }

  /** The maximum skips the string. */
  lemma MaxStrategy(e1: Fields, later: seq<Fields>, strategies: map<Key, Strategy>, n: string, text: string, event: Value)
    requires [Field(n)] in strategies && strategies[[Field(n)]] == Max
    requires |later| == 2 && Sorted(e1) && Sorted(later[0]) && Sorted(later[1]) && PlainNames(e1)
    requires Find(e1, n) == Some(Integer(2))
    requires Find(later[0], n) == Some(Bytes(text))
    requires Find(later[1], n) == Some(Integer(3))
    requires IsFlushOf(event, Reduced(e1, later, strategies))
    ensures Get(event, [Field(n)]) == Some(Integer(3))
  {
    PairStrategyField(e1, later, strategies, n, MaxInt(2), Bytes(text), Integer(3), event);
    MaxFed(text);
  }

  /** A max merger from 2 fed a string and 3. */
  lemma MaxFed(text: string)
    ensures Finalize(Feed(MaxInt(2), [Bytes(text), Integer(3)])) == Integer(3)
  {
    FeedMax(2, [Bytes(text), Integer(3)]);
  }

  /** The array strategy nests each array value and appends the string. */
  lemma ArraysNest(e1: Fields, later: seq<Fields>, strategies: map<Key, Strategy>, n: string,
                   a: seq<Value>, b: seq<Value>, text: string, event: Value)
    requires [Field(n)] in strategies && strategies[[Field(n)]] == Strategy.Array
    requires |later| == 2 && Sorted(e1) && Sorted(later[0]) && Sorted(later[1]) && PlainNames(e1)
    requires Find(e1, n) == Some(Value.Array(a))
    requires Find(later[0], n) == Some(Value.Array(b))
    requires Find(later[1], n) == Some(Bytes(text))
    requires IsFlushOf(event, Reduced(e1, later, strategies))
    ensures Get(event, [Field(n)]) == Some(Value.Array([Value.Array(a), Value.Array(b), Bytes(text)]))
  {
    PairStrategyField(e1, later, strategies, n, Collect([Value.Array(a)]), Value.Array(b), Bytes(text), event);
    CollectFed(Value.Array(a), Value.Array(b), Bytes(text));
  }

  /** The concat strategy flattens array values and appends the string. */
  lemma ArraysFlatten(e1: Fields, later: seq<Fields>, strategies: map<Key, Strategy>, n: string,
                      a: seq<Value>, b: seq<Value>, text: string, event: Value)
    requires [Field(n)] in strategies && strategies[[Field(n)]] == Concat
    requires |later| == 2 && Sorted(e1) && Sorted(later[0]) && Sorted(later[1]) && PlainNames(e1)
    requires Find(e1, n) == Some(Value.Array(a))
    requires Find(later[0], n) == Some(Value.Array(b))
    requires Find(later[1], n) == Some(Bytes(text))
    requires IsFlushOf(event, Reduced(e1, later, strategies))
    ensures Get(event, [Field(n)]) == Some(Value.Array(a + b + [Bytes(text)]))
  {
    PairStrategyField(e1, later, strategies, n, ConcatArray(a), Value.Array(b), Bytes(text), event);
    FlattenFed(a, b, text);
  }

  /** A concat merger over an array fed an array and a string. */
  lemma FlattenFed(a: seq<Value>, b: seq<Value>, text: string)
    ensures Finalize(Feed(ConcatArray(a), [Value.Array(b), Bytes(text)])) == Value.Array(a + b + [Bytes(text)])
  {
    FeedConcatArray(a, [Value.Array(b), Bytes(text)]);
    assert [Value.Array(b), Bytes(text)][1..] == [Bytes(text)];
    assert [Bytes(text)][1..] == [];
    assert Flatten([Bytes(text)]) == [Bytes(text)] + [];
    assert Flatten([Value.Array(b), Bytes(text)]) == b + [Bytes(text)];
  }

  // ---------------------------------------------------------------------------
  // The five-event stream: which events share a bucket and when it is flushed

  /** The buckets `TransformOne` leaves after one event, with only `ends_when` configured. */
  function Step(bs: map<Discriminant, Bucket>, e: Fields, groupBy: seq<Key>, endsWhen: Condition,
                strategies: map<Key, Strategy>, now: int, expireAfter: int): map<Discriminant, Bucket>
  {
    Unexpired(AfterEvent(bs, e, DiscriminantOf(e, groupBy), BoundaryOf(e, None, Some(endsWhen)), strategies, now),
              now, expireAfter)
  }

  /** The buckets the staleness sweep of that `TransformOne` flushes. */
  function Swept(bs: map<Discriminant, Bucket>, e: Fields, groupBy: seq<Key>, endsWhen: Condition,
                 strategies: map<Key, Strategy>, now: int, expireAfter: int): set<Discriminant>
  {
    StaleKeys(AfterEvent(bs, e, DiscriminantOf(e, groupBy), BoundaryOf(e, None, Some(endsWhen)), strategies, now),
              now, expireAfter)
  }

  /** The bucket that `TransformOne` flushes because its event ends it, if any. */
  function Emitted(bs: map<Discriminant, Bucket>, e: Fields, groupBy: seq<Key>, endsWhen: Condition,
                   strategies: map<Key, Strategy>, now: int): Option<Bucket>
  {
    EmittedBy(bs, e, DiscriminantOf(e, groupBy), BoundaryOf(e, None, Some(endsWhen)), strategies, now)
  }

  /** Buckets all touched within the expiry window are none of them stale. */
  lemma NoneStale(bs: map<Discriminant, Bucket>, lo: int, now: int, expireAfter: int)
    requires lo <= now && now - lo < expireAfter
    requires forall d :: d in bs ==> lo <= bs[d].staleSince
    ensures StaleKeys(bs, now, expireAfter) == {}
    ensures Unexpired(bs, now, expireAfter) == bs
  {
    forall d | d in bs ensures !IsStale(bs[d], now, expireAfter) {
      assert Elapsed(bs[d].staleSince, now) <= now - lo;
    }
  }

  /** Grouping by one top-level field gives the one-element discriminant of its value. */
  lemma OneFieldDiscriminant(e: Fields, n: string)
    ensures DiscriminantOf(e, [[Field(n)]]) == [Find(e, n)]
  {
    GetTopField(e, n);
  }

  /** An event that does not meet the end condition joins its bucket and flushes nothing. */
  lemma InsideStep(bs: map<Discriminant, Bucket>, e: Fields, g: seq<Key>, endsWhen: Condition,
                   strategies: map<Key, Strategy>, lo: int, now: int, expireAfter: int)
    requires !endsWhen(e)
    requires lo <= now && now - lo < expireAfter
    requires forall d :: d in bs ==> lo <= bs[d].staleSince
    ensures
      var d := DiscriminantOf(e, g);
      && Emitted(bs, e, g, endsWhen, strategies, now) == None
      && Swept(bs, e, g, endsWhen, strategies, now, expireAfter) == {}
      && Step(bs, e, g, endsWhen, strategies, now, expireAfter)
         == bs[d := if d in bs then AddEventSpec(bs[d], e, strategies, now) else NewBucket(e, strategies, now)]
  {
    var d := DiscriminantOf(e, g);
    var m := AfterEvent(bs, e, d, Inside, strategies, now);
    assert m == bs[d := if d in bs then AddEventSpec(bs[d], e, strategies, now) else NewBucket(e, strategies, now)];
    NoneStale(m, lo, now, expireAfter);
  }

  /** An event that meets the end condition flushes its bucket, merged with it, and closes it. */
  lemma EndStep(bs: map<Discriminant, Bucket>, e: Fields, g: seq<Key>, endsWhen: Condition,
                strategies: map<Key, Strategy>, lo: int, now: int, expireAfter: int)
    requires endsWhen(e)
    requires lo <= now && now - lo < expireAfter
    requires forall d :: d in bs ==> lo <= bs[d].staleSince
    ensures
      var d := DiscriminantOf(e, g);
      && Emitted(bs, e, g, endsWhen, strategies, now)
         == Some(if d in bs then AddEventSpec(bs[d], e, strategies, now) else NewBucket(e, strategies, now))
      && Swept(bs, e, g, endsWhen, strategies, now, expireAfter) == {}
      && Step(bs, e, g, endsWhen, strategies, now, expireAfter) == bs - {d}
  {
    var d := DiscriminantOf(e, g);
    var m := AfterEvent(bs, e, d, EndsHere, strategies, now);
    assert m == bs - {d};
    NoneStale(m, lo, now, expireAfter);
  }

  lemma ReducedOfThree(e1: Fields, e3: Fields, e4: Fields, strategies: map<Key, Strategy>)
    ensures Reduced(e1, [e3, e4], strategies)
            == AddFields(AddFields(NewFields(e1, strategies), e3, strategies), e4, strategies)
  {
    var later := [e3, e4];
    assert later[..|later| - 1] == [e3] && later[|later| - 1] == e4;
    assert [e3][..0] == [] && [e3][0] == e3;
    assert Reduced(e1, [e3], strategies) == AddFields(NewFields(e1, strategies), e3, strategies);
  }

  lemma ReducedOfTwo(e2: Fields, e5: Fields, strategies: map<Key, Strategy>)
    ensures Reduced(e2, [e5], strategies) == AddFields(NewFields(e2, strategies), e5, strategies)
  {
    assert [e5][..0] == [];
  }

  /** Event 1 opens the bucket of its group value. */
  lemma FirstEvent(e1: Fields, g: seq<Key>, da: Discriminant, endsWhen: Condition,
                   strategies: map<Key, Strategy>, t1: int, expireAfter: int)
    requires DiscriminantOf(e1, g) == da && !endsWhen(e1)
    requires 0 < expireAfter
    ensures Emitted(map[], e1, g, endsWhen, strategies, t1) == None
    ensures Swept(map[], e1, g, endsWhen, strategies, t1, expireAfter) == {}
    ensures Step(map[], e1, g, endsWhen, strategies, t1, expireAfter) == map[da := NewBucket(e1, strategies, t1)]
  {
    InsideStep(map[], e1, g, endsWhen, strategies, t1, t1, expireAfter);
  }

  /** Event 2, of another group value, opens a second bucket beside the first. */
  lemma SecondEvent(s1: map<Discriminant, Bucket>, e2: Fields, g: seq<Key>, da: Discriminant, db: Discriminant,
                    b1: Bucket, endsWhen: Condition, strategies: map<Key, Strategy>, t1: int, t2: int,
                    expireAfter: int)
    requires s1 == map[da := b1] && b1.staleSince == t1 && da != db
    requires DiscriminantOf(e2, g) == db && !endsWhen(e2)
    requires t1 <= t2 && t2 - t1 < expireAfter
    ensures Emitted(s1, e2, g, endsWhen, strategies, t2) == None
    ensures Swept(s1, e2, g, endsWhen, strategies, t2, expireAfter) == {}
    ensures Step(s1, e2, g, endsWhen, strategies, t2, expireAfter) == map[da := b1, db := NewBucket(e2, strategies, t2)]
  {
    InsideStep(s1, e2, g, endsWhen, strategies, t1, t2, expireAfter);
  }

  /** Event 3 joins the first bucket. */
  lemma ThirdEvent(s2: map<Discriminant, Bucket>, e3: Fields, g: seq<Key>, da: Discriminant, db: Discriminant,
                   b1: Bucket, b2: Bucket, endsWhen: Condition, strategies: map<Key, Strategy>, t1: int, t3: int,
                   expireAfter: int)
    requires s2 == map[da := b1, db := b2] && t1 <= b1.staleSince && t1 <= b2.staleSince && da != db
    requires DiscriminantOf(e3, g) == da && !endsWhen(e3)
    requires t1 <= t3 && t3 - t1 < expireAfter
    ensures Emitted(s2, e3, g, endsWhen, strategies, t3) == None
    ensures Swept(s2, e3, g, endsWhen, strategies, t3, expireAfter) == {}
    ensures Step(s2, e3, g, endsWhen, strategies, t3, expireAfter)
            == map[da := AddEventSpec(b1, e3, strategies, t3), db := b2]
  {
    InsideStep(s2, e3, g, endsWhen, strategies, t1, t3, expireAfter);
    assert s2[da] == b1;
  }

  /** Event 4 ends the first bucket: it is flushed with event 4 merged in, and only the second stays open. */
  lemma FourthEvent(s3: map<Discriminant, Bucket>, e4: Fields, g: seq<Key>, da: Discriminant, db: Discriminant,
                    b3: Bucket, b2: Bucket, endsWhen: Condition, strategies: map<Key, Strategy>, t1: int, t4: int,
                    expireAfter: int)
    requires s3 == map[da := b3, db := b2] && t1 <= b3.staleSince && t1 <= b2.staleSince && da != db
    requires DiscriminantOf(e4, g) == da && endsWhen(e4)
    requires t1 <= t4 && t4 - t1 < expireAfter
    ensures Emitted(s3, e4, g, endsWhen, strategies, t4) == Some(AddEventSpec(b3, e4, strategies, t4))
    ensures Swept(s3, e4, g, endsWhen, strategies, t4, expireAfter) == {}
    ensures Step(s3, e4, g, endsWhen, strategies, t4, expireAfter) == map[db := b2]
  {
    EndStep(s3, e4, g, endsWhen, strategies, t1, t4, expireAfter);
    assert s3[da] == b3;
    assert s3 - {da} == map[db := b2];
  }

  /** With one bucket open, an event of its group that does not end it joins it. */
  lemma JoinSole(s: map<Discriminant, Bucket>, e: Fields, g: seq<Key>, d: Discriminant,
                 b: Bucket, endsWhen: Condition, strategies: map<Key, Strategy>, t1: int, now: int,
                 expireAfter: int)
    requires s == map[d := b] && t1 <= b.staleSince
    requires DiscriminantOf(e, g) == d && !endsWhen(e)
    requires t1 <= now && now - t1 < expireAfter
    ensures Emitted(s, e, g, endsWhen, strategies, now) == None
    ensures Swept(s, e, g, endsWhen, strategies, now, expireAfter) == {}
    ensures Step(s, e, g, endsWhen, strategies, now, expireAfter) == map[d := AddEventSpec(b, e, strategies, now)]
  {
    InsideStep(s, e, g, endsWhen, strategies, t1, now, expireAfter);
    assert s[d] == b;
  }

  /** With one bucket open, an event of its group that ends it flushes it, and no bucket is left open. */
  lemma EndSole(s: map<Discriminant, Bucket>, e: Fields, g: seq<Key>, d: Discriminant,
                b: Bucket, endsWhen: Condition, strategies: map<Key, Strategy>, t1: int, now: int,
                expireAfter: int)
    requires s == map[d := b] && t1 <= b.staleSince
    requires DiscriminantOf(e, g) == d && endsWhen(e)
    requires t1 <= now && now - t1 < expireAfter
    ensures Emitted(s, e, g, endsWhen, strategies, now) == Some(AddEventSpec(b, e, strategies, now))
    ensures Swept(s, e, g, endsWhen, strategies, now, expireAfter) == {}
    ensures Step(s, e, g, endsWhen, strategies, now, expireAfter) == map[]
  {
    EndStep(s, e, g, endsWhen, strategies, t1, now, expireAfter);
    assert s[d] == b;
    assert s - {d} == map[];
  }

  /**
   * The stream of the `ends_when` tests: events 1, 3 and 4 share one group
   * value and events 2 and 5 another; only 4 and 5 meet the end condition,
   * and all five arrive within the expiry window. Nothing is flushed until
   * event 4, which flushes the bucket reduced from 1, 3 and 4; event 5 then
   * flushes the bucket reduced from 2 and 5, and no bucket is left open.
   * The second group value may be `None` (the event lacks the field).
   */
  lemma EndsWhenStream(e1: Fields, e2: Fields, e3: Fields, e4: Fields, e5: Fields, n: string,
                       va: Option<Value>, vb: Option<Value>, endsWhen: Condition,
                       strategies: map<Key, Strategy>, t1: int, t2: int, t3: int, t4: int, t5: int,
                       expireAfter: int)
    requires va != vb
    requires Find(e1, n) == va && Find(e3, n) == va && Find(e4, n) == va
    requires Find(e2, n) == vb && Find(e5, n) == vb
    requires !endsWhen(e1) && !endsWhen(e2) && !endsWhen(e3) && endsWhen(e4) && endsWhen(e5)
    requires t1 <= t2 <= t3 <= t4 <= t5 && t5 - t1 < expireAfter
    ensures
      var g := [[Field(n)]];
      var s1 := Step(map[], e1, g, endsWhen, strategies, t1, expireAfter);
      var s2 := Step(s1, e2, g, endsWhen, strategies, t2, expireAfter);
      var s3 := Step(s2, e3, g, endsWhen, strategies, t3, expireAfter);
      var s4 := Step(s3, e4, g, endsWhen, strategies, t4, expireAfter);
      var s5 := Step(s4, e5, g, endsWhen, strategies, t5, expireAfter);
      && Emitted(map[], e1, g, endsWhen, strategies, t1) == None
      && Emitted(s1, e2, g, endsWhen, strategies, t2) == None
      && Emitted(s2, e3, g, endsWhen, strategies, t3) == None
      && Emitted(s3, e4, g, endsWhen, strategies, t4) == Some(Bucket(Reduced(e1, [e3, e4], strategies), t4))
      && Emitted(s4, e5, g, endsWhen, strategies, t5) == Some(Bucket(Reduced(e2, [e5], strategies), t5))
      && Swept(map[], e1, g, endsWhen, strategies, t1, expireAfter) == {}
      && Swept(s1, e2, g, endsWhen, strategies, t2, expireAfter) == {}
      && Swept(s2, e3, g, endsWhen, strategies, t3, expireAfter) == {}
      && Swept(s3, e4, g, endsWhen, strategies, t4, expireAfter) == {}
      && Swept(s4, e5, g, endsWhen, strategies, t5, expireAfter) == {}
      && s5 == map[]
  {
    var g := [[Field(n)]];
    var da, db := [va], [vb];
    OneFieldDiscriminant(e1, n);
    OneFieldDiscriminant(e2, n);
    OneFieldDiscriminant(e3, n);
    OneFieldDiscriminant(e4, n);
    OneFieldDiscriminant(e5, n);
    var b1, b2 := NewBucket(e1, strategies, t1), NewBucket(e2, strategies, t2);
    var b3 := AddEventSpec(b1, e3, strategies, t3);
    FirstEvent(e1, g, da, endsWhen, strategies, t1, expireAfter);
    var s1 := Step(map[], e1, g, endsWhen, strategies, t1, expireAfter);
    SecondEvent(s1, e2, g, da, db, b1, endsWhen, strategies, t1, t2, expireAfter);
    var s2 := Step(s1, e2, g, endsWhen, strategies, t2, expireAfter);
    ThirdEvent(s2, e3, g, da, db, b1, b2, endsWhen, strategies, t1, t3, expireAfter);
    var s3 := Step(s2, e3, g, endsWhen, strategies, t3, expireAfter);
    FourthEvent(s3, e4, g, da, db, b3, b2, endsWhen, strategies, t1, t4, expireAfter);
    var s4 := Step(s3, e4, g, endsWhen, strategies, t4, expireAfter);
    EndSole(s4, e5, g, db, b2, endsWhen, strategies, t1, t5, expireAfter);
    ReducedOfThree(e1, e3, e4, strategies);
    ReducedOfTwo(e2, e5, strategies);
  }

  /**
   * The stream of the merge-strategies test: three events of one group
   * value, the last meeting the end condition. Only the last event flushes,
   * and it flushes the bucket reduced from all three.
   */
  lemma OneBucketStream(e1: Fields, e2: Fields, e3: Fields, n: string, va: Option<Value>, endsWhen: Condition,
                        strategies: map<Key, Strategy>, t1: int, t2: int, t3: int, expireAfter: int)
    requires Find(e1, n) == va && Find(e2, n) == va && Find(e3, n) == va
    requires !endsWhen(e1) && !endsWhen(e2) && endsWhen(e3)
    requires t1 <= t2 <= t3 && t3 - t1 < expireAfter
    ensures
      var g := [[Field(n)]];
      var s1 := Step(map[], e1, g, endsWhen, strategies, t1, expireAfter);
      var s2 := Step(s1, e2, g, endsWhen, strategies, t2, expireAfter);
      var s3 := Step(s2, e3, g, endsWhen, strategies, t3, expireAfter);
      && Emitted(map[], e1, g, endsWhen, strategies, t1) == None
      && Emitted(s1, e2, g, endsWhen, strategies, t2) == None
      && Emitted(s2, e3, g, endsWhen, strategies, t3) == Some(Bucket(Reduced(e1, [e2, e3], strategies), t3))
      && Swept(map[], e1, g, endsWhen, strategies, t1, expireAfter) == {}
      && Swept(s1, e2, g, endsWhen, strategies, t2, expireAfter) == {}
      && Swept(s2, e3, g, endsWhen, strategies, t3, expireAfter) == {}
      && s3 == map[]
  {
    var g := [[Field(n)]];
    var da := [va];
    OneFieldDiscriminant(e1, n);
    OneFieldDiscriminant(e2, n);
    OneFieldDiscriminant(e3, n);
    var b1 := NewBucket(e1, strategies, t1);
    FirstEvent(e1, g, da, endsWhen, strategies, t1, expireAfter);
    var s1 := Step(map[], e1, g, endsWhen, strategies, t1, expireAfter);
    JoinSole(s1, e2, g, da, b1, endsWhen, strategies, t1, t2, expireAfter);
    var s2 := Step(s1, e2, g, endsWhen, strategies, t2, expireAfter);
    EndSole(s2, e3, g, da, AddEventSpec(b1, e2, strategies, t2), endsWhen, strategies, t1, t3, expireAfter);
    ReducedOfThree(e1, e2, e3, strategies);
  }

  /**
   * The stream of the arrays test: events 1, 3 and 4 share one group value
   * and events 2, 5 and 6 another; events 4 and 6 meet the end condition.
   * Event 4 flushes the bucket reduced from 1, 3 and 4, event 6 the bucket
   * reduced from 2, 5 and 6, and nothing else is flushed.
   */
  lemma TwoBucketStream(e1: Fields, e2: Fields, e3: Fields, e4: Fields, e5: Fields, e6: Fields, n: string,
                        va: Option<Value>, vb: Option<Value>, endsWhen: Condition,
                        strategies: map<Key, Strategy>, t1: int, t2: int, t3: int, t4: int, t5: int, t6: int,
                        expireAfter: int)
    requires va != vb
    requires Find(e1, n) == va && Find(e3, n) == va && Find(e4, n) == va
    requires Find(e2, n) == vb && Find(e5, n) == vb && Find(e6, n) == vb
    requires !endsWhen(e1) && !endsWhen(e2) && !endsWhen(e3) && endsWhen(e4) && !endsWhen(e5) && endsWhen(e6)
    requires t1 <= t2 <= t3 <= t4 <= t5 <= t6 && t6 - t1 < expireAfter
    ensures
      var g := [[Field(n)]];
      var s1 := Step(map[], e1, g, endsWhen, strategies, t1, expireAfter);
      var s2 := Step(s1, e2, g, endsWhen, strategies, t2, expireAfter);
      var s3 := Step(s2, e3, g, endsWhen, strategies, t3, expireAfter);
      var s4 := Step(s3, e4, g, endsWhen, strategies, t4, expireAfter);
      var s5 := Step(s4, e5, g, endsWhen, strategies, t5, expireAfter);
      var s6 := Step(s5, e6, g, endsWhen, strategies, t6, expireAfter);
      && Emitted(map[], e1, g, endsWhen, strategies, t1) == None
      && Emitted(s1, e2, g, endsWhen, strategies, t2) == None
      && Emitted(s2, e3, g, endsWhen, strategies, t3) == None
      && Emitted(s3, e4, g, endsWhen, strategies, t4) == Some(Bucket(Reduced(e1, [e3, e4], strategies), t4))
      && Emitted(s4, e5, g, endsWhen, strategies, t5) == None
      && Emitted(s5, e6, g, endsWhen, strategies, t6) == Some(Bucket(Reduced(e2, [e5, e6], strategies), t6))
      && Swept(map[], e1, g, endsWhen, strategies, t1, expireAfter) == {}
      && Swept(s1, e2, g, endsWhen, strategies, t2, expireAfter) == {}
      && Swept(s2, e3, g, endsWhen, strategies, t3, expireAfter) == {}
      && Swept(s3, e4, g, endsWhen, strategies, t4, expireAfter) == {}
      && Swept(s4, e5, g, endsWhen, strategies, t5, expireAfter) == {}
      && Swept(s5, e6, g, endsWhen, strategies, t6, expireAfter) == {}
      && s6 == map[]
  {
    var g := [[Field(n)]];
    var da, db := [va], [vb];
    OneFieldDiscriminant(e1, n);
    OneFieldDiscriminant(e2, n);
    OneFieldDiscriminant(e3, n);
    OneFieldDiscriminant(e4, n);
    OneFieldDiscriminant(e5, n);
    OneFieldDiscriminant(e6, n);
    var b1, b2 := NewBucket(e1, strategies, t1), NewBucket(e2, strategies, t2);
    var b3 := AddEventSpec(b1, e3, strategies, t3);
    FirstEvent(e1, g, da, endsWhen, strategies, t1, expireAfter);
    var s1 := Step(map[], e1, g, endsWhen, strategies, t1, expireAfter);
    SecondEvent(s1, e2, g, da, db, b1, endsWhen, strategies, t1, t2, expireAfter);
    var s2 := Step(s1, e2, g, endsWhen, strategies, t2, expireAfter);
    ThirdEvent(s2, e3, g, da, db, b1, b2, endsWhen, strategies, t1, t3, expireAfter);
    var s3 := Step(s2, e3, g, endsWhen, strategies, t3, expireAfter);
    FourthEvent(s3, e4, g, da, db, b3, b2, endsWhen, strategies, t1, t4, expireAfter);
    var s4 := Step(s3, e4, g, endsWhen, strategies, t4, expireAfter);
    JoinSole(s4, e5, g, db, b2, endsWhen, strategies, t1, t5, expireAfter);
    var s5 := Step(s4, e5, g, endsWhen, strategies, t5, expireAfter);
    EndSole(s5, e6, g, db, AddEventSpec(b2, e5, strategies, t5), endsWhen, strategies, t1, t6, expireAfter);
    ReducedOfThree(e1, e3, e4, strategies);
    ReducedOfThree(e2, e5, e6, strategies);
  }
}
