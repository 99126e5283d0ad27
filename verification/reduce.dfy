/**
 * The reduce transform: log events are grouped into buckets by the values of
 * the `group_by` fields (the discriminant); each bucket merges its events
 * field by field, and is flushed as one event when a condition marks the end
 * (or the start of the next) bucket, or when it has seen no event for
 * `expire_after` milliseconds.
 *
 * Time is an explicit `now` in milliseconds, conditions are functions of the
 * event, and the iteration order of the hash maps is left open: the model
 * picks keys with `:|`, and the methods hand back the order they used.
 */
module Reduce {
  import opened Base
  import opened Lookup
  import opened Values
  import opened Mergers
  import LookupExamples

  /** A field path; every path a key can become has at least one segment. */
  type Key = p: seq<Segment> | p != [] witness [Field("")]

  /** A log event's top-level fields, in key order (what `LogEvent::into_iter` walks). */
  type Fields = seq<Entry>

  /** The `group_by` values of an event, None where a field is missing. */
  type Discriminant = seq<Option<Value>>

  /** A built `ends_when` / `starts_when` condition. */
  type Condition = Fields -> bool

  /** A bucket as a value: a merger per field, and when it last took an event. */
  datatype Bucket = Bucket(fields: map<Key, Merger>, staleSince: int)

  /** `order` lists every element of s exactly once. */
  ghost predicate Enumerates<T(!new)>(order: seq<T>, s: set<T>) {
    && (forall i, j :: 0 <= i < j < |order| ==> order[i] != order[j])
    && (forall x :: x in order <==> x in s)
  }

  // ---------------------------------------------------------------------------
  // Field keys

  /** `ReduceState::new`'s key: the field name parsed as a path, or the raw name if it does not parse. */
  function NewKey(k: string): (r: Key)
    ensures |r| >= 1
    ensures NoLeadingZeros(k) ==> Render(r) == k
  {
    match FromStr(k)
    case Ok(p) => p
    case Err(_) => FromRaw(k)
  }

  /** `add_event`'s key: always the raw field name as one segment. */
  function AddKey(k: string): (r: Key)
    ensures r == [Field(k)]
  {
    FromRaw(k)
  }

  /** The two keyings agree on a plain name. */
  lemma KeysAgreeOnPlainNames(k: string)
    requires IsBareName(k)
    ensures NewKey(k) == AddKey(k)
  {
    forall i: nat | i < |k| ensures !LeadingZeroAt(k, i) {
      assert IsBareChar(k[i]);
    }
    ParseRender([Field(k)]);
    assert Render([Field(k)]) == k + "";
  }

  /** A dotted field name is one field for `add_event` but a two-step path for `ReduceState::new`. */
  lemma KeysDifferOnDottedNames()
    ensures NewKey("a.b") == [Field("a"), Field("b")]
    ensures AddKey("a.b") == [Field("a.b")]
  {
    LookupExamples.ParsedVersusRaw();
  }

  // ---------------------------------------------------------------------------
  // Bucket specification

  /** A merger for a key not yet seen: the configured strategy's, or the default one; a refused value makes none. */
  function StartStep(acc: map<Key, Merger>, k: Key, v: Value, strategies: map<Key, Strategy>): map<Key, Merger> {
    if k in strategies then
      (match GetValueMerger(v, strategies[k])
       case Ok(m) => acc[k := m]
       case Err(_) => acc)
    else acc[k := DefaultMerger(v)]
  }

  /** The keys `ReduceState::new` gives the fields of e, in order. */
  function ParsedKeys(e: Fields): (ks: seq<Key>)
    ensures |ks| == |e| && forall j :: 0 <= j < |e| ==> ks[j] == NewKey(e[j].key)
  {
    seq(|e|, j requires 0 <= j < |e| => NewKey(e[j].key))
  }

  /** Mergers started for the fields of e under the keys ks, a later field overwriting an earlier one with the same key. */
  function StartFields(ks: seq<Key>, e: Fields, strategies: map<Key, Strategy>): map<Key, Merger>
    requires |ks| == |e|
    decreases |e|
  {
    if e == [] then map[]
    else StartStep(StartFields(ks[..|ks| - 1], e[..|e| - 1], strategies), ks[|ks| - 1], e[|e| - 1].val, strategies)
  }

  /** The mergers `ReduceState::new` collects from the first event. */
  function NewFields(e: Fields, strategies: map<Key, Strategy>): map<Key, Merger> {
    StartFields(ParsedKeys(e), e, strategies)
  }

  function NewBucket(e: Fields, strategies: map<Key, Strategy>, now: int): Bucket {
    Bucket(NewFields(e, strategies), now)
  }

  /** One field of a later event: merged into an existing merger, or starting a new one. */
  function AddStep(acc: map<Key, Merger>, e: Entry, strategies: map<Key, Strategy>): map<Key, Merger> {
    var k := AddKey(e.key);
    if k in acc then
      (match Add(acc[k], e.val)
       case Ok(m) => acc[k := m]
       case Err(_) => acc)
    else StartStep(acc, k, e.val, strategies)
  }

  function AddFields(acc: map<Key, Merger>, e: Fields, strategies: map<Key, Strategy>): map<Key, Merger>
    decreases |e|
  {
    if e == [] then acc else AddStep(AddFields(acc, e[..|e| - 1], strategies), e[|e| - 1], strategies)
  }

  function AddEventSpec(b: Bucket, e: Fields, strategies: map<Key, Strategy>, now: int): Bucket {
    Bucket(AddFields(b.fields, e, strategies), now)
  }

  /** One merger written into the event being built; a refused insert leaves it as it was. */
  function FlushStep(event: Value, k: Key, m: Merger): Value {
    match Insert(event, k, Finalize(m))
    case Some(e2) => e2
    case None => event
  }

  /** The event `flush` builds when it drains the fields in the given order. */
  function FlushFold(fields: map<Key, Merger>, order: seq<Key>): Value
    requires forall k :: k in order ==> k in fields
    decreases |order|
  {
    if order == [] then Map([])
    else
      var k := order[|order| - 1];
      FlushStep(FlushFold(fields, order[..|order| - 1]), k, fields[k])
  }

  /** `event` is what `flush` produces for `fields` in some drain order. */
  ghost predicate IsFlushOf(event: Value, fields: map<Key, Merger>) {
    exists order :: Enumerates(order, fields.Keys) && event == FlushFold(fields, order)
  }

  // ---------------------------------------------------------------------------
  // ReduceState

  class ReduceState {
    var fields: map<Key, Merger>
    var staleSince: int

    function View(): Bucket
      reads this
    {
      Bucket(fields, staleSince)
    }

    /** `ReduceState::new`: one merger per field of the first event. */
    constructor (e: Fields, strategies: map<Key, Strategy>, now: int)
      ensures View() == NewBucket(e, strategies, now)
    {
      fields := NewFields(e, strategies);
      staleSince := now;
    }

    /** `add_event`: every field of e merged in, and the bucket marked fresh. */
    method AddEvent(e: Fields, strategies: map<Key, Strategy>, now: int)
      modifies this
      ensures View() == AddEventSpec(old(View()), e, strategies, now)
    {
      for i := 0 to |e|
        invariant fields == AddFields(old(fields), e[..i], strategies)
      {
        ghost var prev := fields;
        var k := AddKey(e[i].key);
        if k in fields {
          match Add(fields[k], e[i].val) {
            case Ok(m) => fields := fields[k := m];
            case Err(_) =>
          }
        } else if k in strategies {
          match GetValueMerger(e[i].val, strategies[k]) {
            case Ok(m) => fields := fields[k := m];
            case Err(_) =>
          }
        } else {
          fields := fields[k := DefaultMerger(e[i].val)];
        }
        assert fields == AddStep(prev, e[i], strategies);
        assert e[..i + 1][..i] == e[..i] && e[..i + 1][i] == e[i];
      }
      assert e[..|e|] == e;
      staleSince := now;
    }

    /** `flush`: a fresh event with each merger's value inserted at its key, in the map's drain order. */
    method Flush() returns (event: Value, ghost order: seq<Key>)
      ensures Enumerates(order, fields.Keys)
      ensures event == FlushFold(fields, order)
      ensures SingleFields(fields) ==>
                && event.Map? && Sorted(event.entries)
                && forall n :: Find(event.entries, n)
                               == if [Field(n)] in fields then Some(Finalize(fields[[Field(n)]])) else None
    {
      event := Map([]);
      order := [];
      var rest := fields.Keys;
      while rest != {}
        invariant rest <= fields.Keys
        invariant forall k :: k in order ==> k in fields && k !in rest
        invariant forall k :: k in fields ==> k in order || k in rest
        invariant forall i, j :: 0 <= i < j < |order| ==> order[i] != order[j]
        invariant event == FlushFold(fields, order)
        decreases rest
      {
        var k :| k in rest;
        match Insert(event, k, Finalize(fields[k])) {
          case Some(e2) => event := e2;
          case None =>
        }
        assert (order + [k])[..|order|] == order;
        order := order + [k];
        rest := rest - {k};
      }
      if SingleFields(fields) {
        FlushSingleFields(fields, order);
      }
    }
  }

  // ---------------------------------------------------------------------------
  // Each field of an event is merged on its own

  /** The two mergers maps hold the same thing under k. */
  predicate AgreeAt(a: map<Key, Merger>, b: map<Key, Merger>, k: Key) {
    (k in a <==> k in b) && (k in a ==> a[k] == b[k])
  }

  /** The raw keys of an event's fields. */
  function AddKeys(e: Fields): set<Key> {
    set i | 0 <= i < |e| :: AddKey(e[i].key)
  }

  /** A key no field of e maps to is left as it was by `add_event`. */
  lemma {:induction false} AddFieldsOtherKey(acc: map<Key, Merger>, e: Fields, strategies: map<Key, Strategy>, k: Key)
    requires k !in AddKeys(e)
    ensures AgreeAt(AddFields(acc, e, strategies), acc, k)
    decreases |e|
  {
    if e != [] {
      var init := e[..|e| - 1];
      assert AddKeys(init) <= AddKeys(e) by {
        forall i | 0 <= i < |init| ensures AddKey(init[i].key) in AddKeys(e) {
          assert init[i] == e[i];
        }
      }
      assert AddKey(e[|e| - 1].key) in AddKeys(e);
      AddFieldsOtherKey(acc, init, strategies, k);
    }
  }

  /**
   * In an event whose field names are distinct, field i is merged exactly as
   * if it were the only field: into the existing merger, or as a new one.
   */
  lemma {:induction false} AddFieldsOneKey(acc: map<Key, Merger>, e: Fields, strategies: map<Key, Strategy>, i: nat)
    requires i < |e|
    requires forall j :: 0 <= j < |e| && j != i ==> e[j].key != e[i].key
    ensures AgreeAt(AddFields(acc, e, strategies), AddStep(acc, e[i], strategies), AddKey(e[i].key))
    decreases |e|
  {
    var k := AddKey(e[i].key);
    var last := |e| - 1;
    var init := e[..last];
    var before := AddFields(acc, init, strategies);
    if i == last {
      assert k !in AddKeys(init) by {
        forall j | 0 <= j < |init| ensures AddKey(init[j].key) != k {
          assert init[j] == e[j];
        }
      }
      AddFieldsOtherKey(acc, init, strategies, k);
      AddStepLocal(before, acc, e[i], strategies);
    } else {
      assert init[i] == e[i];
      forall j | 0 <= j < |init| && j != i ensures init[j].key != init[i].key {
        assert init[j] == e[j];
      }
      AddFieldsOneKey(acc, init, strategies, i);
      assert e[last].key != e[i].key;
    }
  }

  /** What one field does to its own key depends only on what was there. */
  lemma AddStepLocal(a: map<Key, Merger>, b: map<Key, Merger>, x: Entry, strategies: map<Key, Strategy>)
    requires AgreeAt(a, b, AddKey(x.key))
    ensures AgreeAt(AddStep(a, x, strategies), AddStep(b, x, strategies), AddKey(x.key))
  {
  }

  // ---------------------------------------------------------------------------
  // Flushing writes every field

  /** Keys that name one top-level field, as `add_event` makes them. */
  predicate SingleFields(fields: map<Key, Merger>) {
    forall k: Key :: k in fields ==> |k| == 1 && k[0].Field?
  }

  /** The key of a single-field path. */
  function FieldName(k: Key): string
    requires |k| == 1 && k[0].Field?
  {
    k[0].name
  }

  /**
   * With single-field keys nothing can collide: whatever the drain order, the
   * flushed event is a map holding each merger's value under its field, and
   * nothing else.
   */
  lemma {:induction false} FlushSingleFields(fields: map<Key, Merger>, order: seq<Key>)
    requires SingleFields(fields)
    requires forall k :: k in order ==> k in fields
    ensures FlushFold(fields, order).Map? && Sorted(FlushFold(fields, order).entries)
    ensures forall n :: Find(FlushFold(fields, order).entries, n)
                        == if [Field(n)] in order then Some(Finalize(fields[[Field(n)]])) else None
    decreases |order|
  {
    if order != [] {
      var init := order[..|order| - 1];
      var k := order[|order| - 1];
      FlushSingleFields(fields, init);
      var es := FlushFold(fields, init).entries;
      var x := Finalize(fields[k]);
      assert k == [Field(FieldName(k))];
      InsertTopField(es, FieldName(k), x);
      assert FlushFold(fields, order) == Map(Put(es, FieldName(k), x));
      PutSorted(es, FieldName(k), x);
      forall n ensures Find(Put(es, FieldName(k), x), n)
                       == if [Field(n)] in order then Some(Finalize(fields[[Field(n)]])) else None
      {
        FindPut(es, FieldName(k), x, n);
        assert [Field(n)] in order <==> [Field(n)] in init || [Field(n)] == k;
      }
    }
  }

  /** A key found in a sorted list is not below its head. */
  lemma FindNotBelowHead(es: seq<Entry>, k: string)
    requires Sorted(es) && es != [] && Find(es, k).Some?
    ensures !KeyLess(k, es[0].key)
  {
    if KeyLess(k, es[0].key) {
      FindBelowHead(es, k);
      assert false;
    }
  }

  lemma KeyLessTrichotomy(a: string, b: string)
    ensures a == b || KeyLess(a, b) || KeyLess(b, a)
  {
    if a != b {
      KeyLessTotal(a, b);
    }
  }

  /** Two sorted entry lists that find the same value under every key are the same list. */
  lemma {:induction false} SortedExtensional(a: seq<Entry>, b: seq<Entry>)
    requires Sorted(a) && Sorted(b)
    requires forall k :: Find(a, k) == Find(b, k)
    ensures a == b
    decreases |a| + |b|
  {
    if a != [] {
      assert Find(a, a[0].key) == Some(a[0].val);
    }
    if b != [] {
      assert Find(b, b[0].key) == Some(b[0].val);
    }
    if a != [] && b != [] {
      var ka, kb := a[0].key, b[0].key;
      SortedTail(a);
      SortedTail(b);
      FindNotBelowHead(b, ka);
      FindNotBelowHead(a, kb);
      KeyLessTrichotomy(ka, kb);
      assert a[0] == b[0] by {
        assert Find(a, ka) == Some(a[0].val);
      }
      forall k ensures Find(a[1..], k) == Find(b[1..], k) {
        if k == ka {
          if a[1..] != [] {
            assert a[1..][0] == a[1];
            FindBelowHead(a[1..], k);
          }
          if b[1..] != [] {
            assert b[1..][0] == b[1];
            FindBelowHead(b[1..], k);
          }
        } else {
          assert Find(a, k) == Find(a[1..], k);
          assert Find(b, k) == Find(b[1..], k);
        }
      }
      SortedExtensional(a[1..], b[1..]);
    }
  }

  /** With single-field keys, `flush` builds the same event in every drain order. */
  lemma FlushOrderIrrelevant(fields: map<Key, Merger>, o1: seq<Key>, o2: seq<Key>)
    requires SingleFields(fields)
    requires Enumerates(o1, fields.Keys) && Enumerates(o2, fields.Keys)
    ensures FlushFold(fields, o1) == FlushFold(fields, o2)
  {
    FlushSingleFields(fields, o1);
    FlushSingleFields(fields, o2);
    var a, b := FlushFold(fields, o1).entries, FlushFold(fields, o2).entries;
    forall n ensures Find(a, n) == Find(b, n) {
      assert [Field(n)] in o1 <==> [Field(n)] in o2;
    }
    SortedExtensional(a, b);
  }
  /** Inserting `b` into the map `{x: 1}` puts it first. */
  lemma InsertBesideX()
    ensures Insert(Map([Entry("x", Integer(1))]), [Field("b")], Integer(2))
            == Some(Map([Entry("b", Integer(2)), Entry("x", Integer(1))]))
  {
    var es := [Entry("x", Integer(1))];
    assert "b"[0] != "x"[0];
    assert KeyLess("b", "x");
    assert Put(es, "b", Integer(2)) == [Entry("b", Integer(2))] + es == [Entry("b", Integer(2)), Entry("x", Integer(1))];
  }

  /** Inserting at `a.b` under an `a` that holds `{x: 1}` merges into that map. */
  lemma InsertUnderA()
    ensures Insert(Map([Entry("a", Map([Entry("x", Integer(1))]))]), [Field("a"), Field("b")], Integer(2))
            == Some(Map([Entry("a", Map([Entry("b", Integer(2)), Entry("x", Integer(1))]))]))
  {
    var p: seq<Segment> := [Field("a"), Field("b")];
    var inner := Map([Entry("x", Integer(1))]);
    var merged := Map([Entry("b", Integer(2)), Entry("x", Integer(1))]);
    var es := [Entry("a", inner)];
    assert p[1..] == [Field("b")];
    assert Find(es, "a") == Some(inner);
    InsertBesideX();
    assert Insert(inner, p[1..], Integer(2)) == Some(merged);
    assert Put(es, "a", merged) == [Entry("a", merged)];
  }

  /** Inserting at `a.b` into the empty event creates the map `a`. */
  lemma InsertIntoEmpty()
    ensures Insert(Map([]), [Field("a"), Field("b")], Integer(2)) == Some(Map([Entry("a", Map([Entry("b", Integer(2))]))]))
  {
    var p: seq<Segment> := [Field("a"), Field("b")];
    assert p[1..] == [Field("b")];
  }

  /** Inserting the map `{x: 1}` at `a` replaces whatever `a` held. */
  lemma InsertOverA(old_a: Value)
    ensures Insert(Map([Entry("a", old_a)]), [Field("a")], Map([Entry("x", Integer(1))]))
            == Some(Map([Entry("a", Map([Entry("x", Integer(1))]))]))
  {
    var es := [Entry("a", old_a)];
    var inner := Map([Entry("x", Integer(1))]);
    assert es[1..] == [];
    assert Put(es, "a", inner) == [Entry("a", inner)];
  }

  /**
   * With one key a prefix of another (a first event holding both a map field
   * `a` and a field `a.b`), the drain order shows in the flushed event:
   * `a` first merges `b` into its map, `a.b` first is overwritten by `a`.
   */
  lemma FlushOrderMatters()
    ensures
      var a, ab := [Field("a")], [Field("a"), Field("b")];
      var fields := map[a := KeepFirst(Map([Entry("x", Integer(1))])), ab := KeepFirst(Integer(2))];
      && Enumerates([a, ab], fields.Keys) && Enumerates([ab, a], fields.Keys)
      && FlushFold(fields, [a, ab]) == Map([Entry("a", Map([Entry("b", Integer(2)), Entry("x", Integer(1))]))])
      && FlushFold(fields, [ab, a]) == Map([Entry("a", Map([Entry("x", Integer(1))]))])
  {
    var a: Key, ab: Key := [Field("a")], [Field("a"), Field("b")];
    var inner := Map([Entry("x", Integer(1))]);
    var fields := map[a := KeepFirst(inner), ab := KeepFirst(Integer(2))];
    var first: seq<Key>, second: seq<Key>, none: seq<Key> := [a], [ab], [];
    assert [a, ab][..1] == first && first[..0] == none;
    assert [ab, a][..1] == second && second[..0] == none;
    var m1 := Map([Entry("a", inner)]);
    var m2 := Map([Entry("a", Map([Entry("b", Integer(2))]))]);
    InsertOverA(Integer(0));
    assert FlushFold(fields, first) == FlushStep(Map([]), a, KeepFirst(inner)) == m1;
    InsertUnderA();
    assert FlushFold(fields, [a, ab]) == FlushStep(m1, ab, KeepFirst(Integer(2)));
    InsertIntoEmpty();
    assert FlushFold(fields, second) == FlushStep(Map([]), ab, KeepFirst(Integer(2))) == m2;
    InsertOverA(Map([Entry("b", Integer(2))]));
    assert FlushFold(fields, [ab, a]) == FlushStep(m2, a, KeepFirst(inner));
  }

  /** A key not among ks gets no merger. */
  lemma {:induction false} StartFieldsOtherKey(ks: seq<Key>, e: Fields, strategies: map<Key, Strategy>, k: Key)
    requires |ks| == |e| && k !in ks
    ensures k !in StartFields(ks, e, strategies)
    decreases |e|
  {
    if e != [] {
      StartFieldsOtherKey(ks[..|ks| - 1], e[..|e| - 1], strategies, k);
    }
  }

  /** A field whose key no other field shares gets exactly the merger it would get alone. */
  lemma {:induction false} StartFieldsOneKey(ks: seq<Key>, e: Fields, strategies: map<Key, Strategy>, i: nat)
    requires |ks| == |e| && i < |e|
    requires forall j :: 0 <= j < |ks| && j != i ==> ks[j] != ks[i]
    ensures AgreeAt(StartFields(ks, e, strategies), StartStep(map[], ks[i], e[i].val, strategies), ks[i])
    decreases |e|
  {
    var last := |e| - 1;
    var ks0, e0 := ks[..last], e[..last];
    if i == last {
      StartFieldsOtherKey(ks0, e0, strategies, ks[i]);
    } else {
      assert ks0[i] == ks[i] && e0[i] == e[i];
      StartFieldsOneKey(ks0, e0, strategies, i);
    }
  }

  /**
   * `ReduceState::new` gives a field of the first event whose parsed key no
   * other field shares the merger its strategy builds (none if the strategy
   * refuses the value), or the default merger when no strategy is configured;
   * and no merger under a key no field parses to.
   */
  lemma NewFieldsPerKey(e: Fields, strategies: map<Key, Strategy>)
    ensures forall k: Key :: k in NewFields(e, strategies) ==> exists j :: 0 <= j < |e| && NewKey(e[j].key) == k
    ensures forall i :: 0 <= i < |e| && (forall j :: 0 <= j < |e| && j != i ==> NewKey(e[j].key) != NewKey(e[i].key)) ==>
      AgreeAt(NewFields(e, strategies), StartStep(map[], NewKey(e[i].key), e[i].val, strategies), NewKey(e[i].key))
  {
    var ks := ParsedKeys(e);
    forall k: Key | k in NewFields(e, strategies) ensures exists j :: 0 <= j < |e| && NewKey(e[j].key) == k {
      if k !in ks {
        StartFieldsOtherKey(ks, e, strategies, k);
      }
      var j :| 0 <= j < |ks| && ks[j] == k;
    }
    forall i | 0 <= i < |e| && (forall j :: 0 <= j < |e| && j != i ==> NewKey(e[j].key) != NewKey(e[i].key))
      ensures AgreeAt(NewFields(e, strategies), StartStep(map[], NewKey(e[i].key), e[i].val, strategies), NewKey(e[i].key))
    {
      StartFieldsOneKey(ks, e, strategies, i);
    }
  }

  // ---------------------------------------------------------------------------
  // A field followed through a bucket's events

  /** Every top-level field name of e is a plain name (no dot, bracket or quote). */
  predicate PlainNames(e: Fields) {
    forall i :: 0 <= i < |e| ==> IsBareName(e[i].key)
  }

  /** The keys of a sorted entry list are distinct. */
  lemma SortedDistinct(e: Fields, i: nat, j: nat)
    requires Sorted(e) && i < |e| && j < |e| && i != j
    ensures e[i].key != e[j].key
  {
    if i < j {
      KeyLessIrreflexive(e[i].key);
    } else {
      KeyLessIrreflexive(e[j].key);
    }
  }

  /** `add_event` on an event (a map, so its names are distinct) does to field n what its value under n says. */
  lemma AddFieldsByName(acc: map<Key, Merger>, e: Fields, strategies: map<Key, Strategy>, n: string)
    requires Sorted(e)
    ensures AgreeAt(AddFields(acc, e, strategies),
                    match Find(e, n) case Some(v) => AddStep(acc, Entry(n, v), strategies) case None => acc,
                    [Field(n)])
  {
    match Find(e, n)
    case Some(v) =>
      var i :| 0 <= i < |e| && e[i] == Entry(n, v);
      forall j | 0 <= j < |e| && j != i ensures e[j].key != e[i].key {
        SortedDistinct(e, i, j);
      }
      AddFieldsOneKey(acc, e, strategies, i);
    case None =>
      assert [Field(n)] !in AddKeys(e) by {
        forall j | 0 <= j < |e| ensures AddKey(e[j].key) != [Field(n)] {
          KeyInKeys(e, j);
        }
      }
      AddFieldsOtherKey(acc, e, strategies, [Field(n)]);
  }

  /** `ReduceState::new` on an event of plain names gives field n the merger its first value starts. */
  lemma NewFieldsByName(e: Fields, strategies: map<Key, Strategy>, n: string)
    requires Sorted(e) && PlainNames(e) && Find(e, n).Some?
    ensures AgreeAt(NewFields(e, strategies), StartStep(map[], [Field(n)], Find(e, n).value, strategies), [Field(n)])
  {
    var i :| 0 <= i < |e| && e[i] == Entry(n, Find(e, n).value);
    KeysAgreeOnPlainNames(n);
    forall j | 0 <= j < |e| && j != i ensures NewKey(e[j].key) != NewKey(e[i].key) {
      SortedDistinct(e, i, j);
      KeysAgreeOnPlainNames(e[j].key);
    }
    NewFieldsPerKey(e, strategies);
  }

  /** The mergers of a bucket opened by `first` that then took the `later` events, in order. */
  function Reduced(first: Fields, later: seq<Fields>, strategies: map<Key, Strategy>): map<Key, Merger>
    decreases |later|
  {
    if later == [] then NewFields(first, strategies)
    else AddFields(Reduced(first, later[..|later| - 1], strategies), later[|later| - 1], strategies)
  }

  /** Field n's value in e, as a list of none or one. */
  function Found(e: Fields, n: string): seq<Value> {
    match Find(e, n)
    case Some(v) => [v]
    case None => []
  }

  /** The values field n takes in the given events, in order, skipping events without it. */
  function ValuesOf(events: seq<Fields>, n: string): seq<Value>
    decreases |events|
  {
    if events == [] then [] else ValuesOf(events[..|events| - 1], n) + Found(events[|events| - 1], n)
  }

  /** One more event feeds its value of field n, if any, to the field's merger. */
  lemma FieldStep(before: map<Key, Merger>, e: Fields, strategies: map<Key, Strategy>, n: string, m0: Merger, vs: seq<Value>)
    requires Sorted(e) && [Field(n)] in before && before[[Field(n)]] == Feed(m0, vs)
    ensures [Field(n)] in AddFields(before, e, strategies)
    ensures AddFields(before, e, strategies)[[Field(n)]] == Feed(m0, vs + Found(e, n))
  {
    AddFieldsByName(before, e, strategies, n);
    match Find(e, n) {
      case Some(v) =>
        FeedSnoc(m0, vs, v);
        assert AddStep(before, Entry(n, v), strategies)[[Field(n)]] == AddOrKeep(before[[Field(n)]], v);
      case None =>
        assert vs + [] == vs;
    }
  }

  /**
   * A plain field of a bucket's first event whose first value the strategy
   * accepts keeps one merger for the bucket's life: the one its first value
   * started, fed every later value of the field in arrival order.
   */
  lemma {:induction false} ReducedField(first: Fields, later: seq<Fields>, strategies: map<Key, Strategy>, n: string)
    requires Sorted(first) && PlainNames(first) && Find(first, n).Some?
    requires [Field(n)] in StartStep(map[], [Field(n)], Find(first, n).value, strategies)
    requires forall i :: 0 <= i < |later| ==> Sorted(later[i])
    ensures [Field(n)] in Reduced(first, later, strategies)
    ensures Reduced(first, later, strategies)[[Field(n)]]
         == Feed(StartStep(map[], [Field(n)], Find(first, n).value, strategies)[[Field(n)]], ValuesOf(later, n))
    decreases |later|
  {
    if later == [] {
      NewFieldsByName(first, strategies, n);
    } else {
      var init := later[..|later| - 1];
      ReducedField(first, init, strategies, n);
      FieldStep(Reduced(first, init, strategies), later[|later| - 1], strategies, n,
                StartStep(map[], [Field(n)], Find(first, n).value, strategies)[[Field(n)]], ValuesOf(init, n));
    }
  }

  /** A flush of single-field mergers writes each merger's value under its field. */
  lemma FlushedField(event: Value, fields: map<Key, Merger>, n: string)
    requires SingleFields(fields) && IsFlushOf(event, fields) && [Field(n)] in fields
    ensures Get(event, [Field(n)]) == Some(Finalize(fields[[Field(n)]]))
  {
    var order :| Enumerates(order, fields.Keys) && event == FlushFold(fields, order);
    FlushSingleFields(fields, order);
    GetTopField(event.entries, n);
  }

  /** The mergers of a bucket whose first event has plain names are all keyed by single fields. */
  lemma {:induction false} ReducedSingleFields(first: Fields, later: seq<Fields>, strategies: map<Key, Strategy>)
    requires PlainNames(first)
    ensures SingleFields(Reduced(first, later, strategies))
    decreases |later|
  {
    if later == [] {
      NewFieldsPerKey(first, strategies);
      forall k: Key | k in NewFields(first, strategies) ensures |k| == 1 && k[0].Field? {
        var j :| 0 <= j < |first| && NewKey(first[j].key) == k;
        KeysAgreeOnPlainNames(first[j].key);
      }
    } else {
      var init, last := later[..|later| - 1], later[|later| - 1];
      ReducedSingleFields(first, init, strategies);
      forall k: Key | k in Reduced(first, later, strategies) ensures |k| == 1 && k[0].Field? {
        if k !in AddKeys(last) {
          AddFieldsOtherKey(Reduced(first, init, strategies), last, strategies, k);
        }
      }
    }
  }

  // ---------------------------------------------------------------------------
  // The bucket map

  /** Milliseconds since `since`; a clock reading before it counts as none. */
  function Elapsed(since: int, now: int): nat {
    if now >= since then now - since else 0
  }

  predicate IsStale(b: Bucket, now: int, expireAfter: int) {
    Elapsed(b.staleSince, now) >= expireAfter
  }

  function StaleKeys(bs: map<Discriminant, Bucket>, now: int, expireAfter: int): (r: set<Discriminant>)
    ensures r <= bs.Keys
    ensures forall d :: d in bs ==> (d in r <==> IsStale(bs[d], now, expireAfter))
  {
    set d | d in bs && IsStale(bs[d], now, expireAfter)
  }

  /** The buckets a staleness sweep keeps. */
  function Unexpired(bs: map<Discriminant, Bucket>, now: int, expireAfter: int): (r: map<Discriminant, Bucket>)
    ensures r.Keys == bs.Keys - StaleKeys(bs, now, expireAfter)
    ensures forall d :: d in r ==> r[d] == bs[d]
  {
    map d | d in bs && !IsStale(bs[d], now, expireAfter) :: bs[d]
  }

  /** `push_or_new_reduce_state`: merge into the bucket for d, or open one. */
  function PushOrNewSpec(bs: map<Discriminant, Bucket>, e: Fields, d: Discriminant,
                         strategies: map<Key, Strategy>, now: int): (r: map<Discriminant, Bucket>)
    ensures r.Keys == bs.Keys + {d}
    ensures forall d' :: d' in bs && d' != d ==> r[d'] == bs[d']
  {
    if d in bs then bs[d := AddEventSpec(bs[d], e, strategies, now)]
    else bs[d := NewBucket(e, strategies, now)]
  }

  /** `Discriminant::from_log_event`: the value at each `group_by` path, None where absent. */
  function DiscriminantOf(e: Fields, groupBy: seq<Key>): (d: Discriminant)
    ensures |d| == |groupBy|
    ensures forall i :: 0 <= i < |groupBy| ==> d[i] == Get(Map(e), groupBy[i])
  {
    seq(|groupBy|, i requires 0 <= i < |groupBy| => Get(Map(e), groupBy[i]))
  }

  /** Events that lack every `group_by` field share one bucket. */
  lemma MissingGroupByShares(e1: Fields, e2: Fields, groupBy: seq<Key>)
    requires forall i :: 0 <= i < |groupBy| ==> Get(Map(e1), groupBy[i]).None? && Get(Map(e2), groupBy[i]).None?
    ensures DiscriminantOf(e1, groupBy) == DiscriminantOf(e2, groupBy)
  {
  }

  /** How an event relates to the bucket boundaries. */
  datatype Boundary = StartsHere | EndsHere | Inside

  /** `starts_when` is consulted first: an event matching both conditions starts a bucket. */
  function BoundaryOf(e: Fields, startsWhen: Option<Condition>, endsWhen: Option<Condition>): (r: Boundary)
    ensures r == StartsHere <==> startsWhen.Some? && startsWhen.value(e)
    ensures r == EndsHere <==> !(startsWhen.Some? && startsWhen.value(e)) && endsWhen.Some? && endsWhen.value(e)
  {
    if startsWhen.Some? && startsWhen.value(e) then StartsHere
    else if endsWhen.Some? && endsWhen.value(e) then EndsHere
    else Inside
  }

  /** The buckets after `transform_one` has placed its event, before the staleness sweep. */
  function AfterEvent(bs: map<Discriminant, Bucket>, e: Fields, d: Discriminant, kind: Boundary,
                      strategies: map<Key, Strategy>, now: int): (r: map<Discriminant, Bucket>)
    ensures kind == StartsHere ==> d in r && r[d] == NewBucket(e, strategies, now)
    ensures kind == EndsHere ==> d !in r
    ensures kind == Inside ==> d in r && r[d] == (if d in bs then AddEventSpec(bs[d], e, strategies, now)
                                                  else NewBucket(e, strategies, now))
    ensures forall d' :: d' != d ==> (d' in r <==> d' in bs) && (d' in r ==> r[d'] == bs[d'])
  {
    match kind
    case StartsHere => PushOrNewSpec(bs - {d}, e, d, strategies, now)
    case EndsHere => bs - {d}
    case Inside => PushOrNewSpec(bs, e, d, strategies, now)
  }

  /** The bucket `transform_one` flushes because of its event's boundary, if any. */
  function EmittedBy(bs: map<Discriminant, Bucket>, e: Fields, d: Discriminant, kind: Boundary,
                     strategies: map<Key, Strategy>, now: int): (r: Option<Bucket>)
    ensures kind == StartsHere ==> r == (if d in bs then Some(bs[d]) else None)
    ensures kind == EndsHere ==> r.Some? && r.value.staleSince == now
    ensures kind == EndsHere ==> r.value == (if d in bs then AddEventSpec(bs[d], e, strategies, now)
                                             else NewBucket(e, strategies, now))
    ensures kind == Inside ==> r == None
  {
    match kind
    case StartsHere => if d in bs then Some(bs[d]) else None
    case EndsHere => Some(if d in bs then AddEventSpec(bs[d], e, strategies, now) else NewBucket(e, strategies, now))
    case Inside => None
  }

  /** A reduce configuration with its conditions already built. */
  datatype ReduceConfig = ReduceConfig(
    expireAfterMs: Option<nat>,
    flushPeriodMs: Option<nat>,
    groupBy: seq<Key>,
    mergeStrategies: map<Key, Strategy>,
    endsWhen: Option<Condition>,
    startsWhen: Option<Condition>)

  const DefaultExpireAfterMs: nat := 30000
  const DefaultFlushPeriodMs: nat := 1000

  class Reduce {
    const expireAfter: nat
    const flushPeriod: nat
    const groupBy: seq<Key>
    const strategies: map<Key, Strategy>
    const endsWhen: Option<Condition>
    const startsWhen: Option<Condition>
    /** The open buckets, by discriminant. */
    var states: map<Discriminant, ReduceState>

    /** No two discriminants share a bucket object. */
    ghost predicate Valid()
      reads this
    {
      forall d1, d2 :: d1 in states && d2 in states && d1 != d2 ==> states[d1] != states[d2]
    }

    function Buckets(): map<Discriminant, Bucket>
      reads this, states.Values
    {
      map d | d in states :: states[d].View()
    }

    constructor (config: ReduceConfig)
      ensures expireAfter == config.expireAfterMs.GetOr(DefaultExpireAfterMs)
      ensures flushPeriod == config.flushPeriodMs.GetOr(DefaultFlushPeriodMs)
      ensures groupBy == config.groupBy && strategies == config.mergeStrategies
      ensures endsWhen == config.endsWhen && startsWhen == config.startsWhen
      ensures states == map[] && Valid()
    {
      expireAfter := config.expireAfterMs.GetOr(DefaultExpireAfterMs);
      flushPeriod := config.flushPeriodMs.GetOr(DefaultFlushPeriodMs);
      groupBy := config.groupBy;
      strategies := config.mergeStrategies;
      endsWhen := config.endsWhen;
      startsWhen := config.startsWhen;
      states := map[];
    }

    /** `Reduce::new`: refused when both conditions are given. */
    static method New(config: ReduceConfig) returns (r: Result<Reduce, string>)
      ensures r.Err? <==> config.endsWhen.Some? && config.startsWhen.Some?
      ensures r.Ok? ==>
        && fresh(r.value) && r.value.states == map[] && r.value.Valid()
        && r.value.expireAfter == config.expireAfterMs.GetOr(DefaultExpireAfterMs)
        && r.value.flushPeriod == config.flushPeriodMs.GetOr(DefaultFlushPeriodMs)
        && r.value.groupBy == config.groupBy && r.value.strategies == config.mergeStrategies
        && r.value.endsWhen == config.endsWhen && r.value.startsWhen == config.startsWhen
    {
      if config.endsWhen.Some? && config.startsWhen.Some? {
        return Err("only one of `ends_when` and `starts_when` can be provided");
      }
      var red := new Reduce(config);
      r := Ok(red);
    }

    /** The first half of `flush_into`: the stale discriminants, in the map's iteration order. */
    method StaleDiscriminants(now: int) returns (stale: seq<Discriminant>)
      ensures Enumerates(stale, StaleKeys(Buckets(), now, expireAfter))
    {
      stale := [];
      var unvisited := states.Keys;
      while unvisited != {}
        invariant unvisited <= states.Keys
        invariant forall d :: d in stale ==> d in states && d !in unvisited
        invariant forall d :: d in states && d !in unvisited ==>
          (d in stale <==> Elapsed(states[d].staleSince, now) >= expireAfter)
        invariant forall i, j :: 0 <= i < j < |stale| ==> stale[i] != stale[j]
        decreases unvisited
      {
        var d :| d in unvisited;
        if Elapsed(states[d].staleSince, now) >= expireAfter {
          stale := stale + [d];
        }
        unvisited := unvisited - {d};
      }
    }

    /** The bucket of d removed from the map, no longer shared with any open bucket. */
    method Detach(d: Discriminant) returns (t: ReduceState)
      requires Valid() && d in states
      modifies this
      ensures Valid() && states == old(states) - {d}
      ensures t == old(states)[d] && t !in states.Values
      ensures Buckets() == old(Buckets()) - {d}
    {
      t := states[d];
      states := states - {d};
      forall x | x in states ensures states[x] != t {
      }
    }

    /** `flush_into`'s second half, for one discriminant: remove its bucket and flush it. */
    method Take(d: Discriminant) returns (event: Value)
      requires Valid() && d in states
      modifies this
      ensures Valid() && states == old(states) - {d}
      ensures IsFlushOf(event, old(states)[d].fields)
    {
      var t := Detach(d);
      ghost var order;
      event, order := t.Flush();
    }

    /**
     * `flush_into`: the stale buckets are removed and flushed to the output,
     * one event each, in the map's iteration order; the rest stay.
     */
    method FlushInto(output: seq<Value>, now: int) returns (out: seq<Value>, ghost flushed: seq<Discriminant>)
      requires Valid()
      modifies this
      ensures Valid()
      ensures Buckets() == Unexpired(old(Buckets()), now, expireAfter)
      ensures Enumerates(flushed, StaleKeys(old(Buckets()), now, expireAfter))
      ensures |out| == |output| + |flushed| && out[..|output|] == output
      ensures forall j :: 0 <= j < |flushed| ==>
        IsFlushOf(out[|output| + j], old(Buckets())[flushed[j]].fields)
    {
      ghost var before := Buckets();
      var stale := StaleDiscriminants(now);
      flushed := stale;
      out := TakeAll(output, stale);
      ghost var after := Unexpired(before, now, expireAfter);
      assert Buckets() == after by {
        forall x ensures x in states <==> x in after {
        }
        forall x | x in states ensures states[x].View() == after[x] {
        }
      }
    }

    /** Each of ds, in order, removed from the map and its bucket flushed to the output. */
    method TakeAll(output: seq<Value>, ds: seq<Discriminant>) returns (out: seq<Value>)
      requires Valid()
      requires forall i, j :: 0 <= i < j < |ds| ==> ds[i] != ds[j]
      requires forall x :: x in ds ==> x in states
      modifies this
      ensures Valid()
      ensures forall x :: x in states <==> x in old(states) && x !in ds
      ensures forall x :: x in states ==> states[x] == old(states)[x]
      ensures |out| == |output| + |ds| && out[..|output|] == output
      ensures forall j :: 0 <= j < |ds| ==> IsFlushOf(out[|output| + j], old(Buckets())[ds[j]].fields)
    {
      ghost var before := Buckets();
      out := output;
      ghost var removed: set<Discriminant> := {};
      for i := 0 to |ds|
        invariant Valid()
        invariant states == old(states) - removed
        invariant forall x :: x in removed <==> x in ds[..i]
        invariant |out| == |output| + i && out[..|output|] == output
        invariant forall j :: 0 <= j < i ==> IsFlushOf(out[|output| + j], before[ds[j]].fields)
      {
        var d := ds[i];
        assert d !in ds[..i] && ds[..i + 1] == ds[..i] + [d];
        assert states[d].fields == before[d].fields;
        var event := Take(d);
        removed := removed + {d};
        out := out + [event];
      }
      assert ds[..|ds|] == ds;
    }

    /** `flush_all_into`: every bucket drained and flushed, in the map's drain order. */
    method FlushAllInto(output: seq<Value>) returns (out: seq<Value>, ghost drained: seq<Discriminant>)
      requires Valid()
      modifies this
      ensures Valid() && states == map[]
      ensures Enumerates(drained, old(Buckets()).Keys)
      ensures |out| == |output| + |drained| && out[..|output|] == output
      ensures forall j :: 0 <= j < |drained| ==> IsFlushOf(out[|output| + j], old(Buckets())[drained[j]].fields)
    {
      ghost var before := Buckets();
      out := output;
      drained := [];
      ghost var removed: set<Discriminant> := {};
      while states != map[]
        invariant Valid() && states == old(states) - removed && removed <= old(states).Keys
        invariant forall x :: x in removed <==> x in drained
        invariant forall i, j :: 0 <= i < j < |drained| ==> drained[i] != drained[j]
        invariant |out| == |output| + |drained| && out[..|output|] == output
        invariant forall j :: 0 <= j < |drained| ==> IsFlushOf(out[|output| + j], before[drained[j]].fields)
        decreases states.Keys
      {
        var d :| d in states;
        assert states[d].fields == before[d].fields;
        var event := Take(d);
        removed := removed + {d};
        drained := drained + [d];
        out := out + [event];
      }
      assert old(states).Keys <= removed by {
        forall x | x in old(states) ensures x in removed {
          assert x !in states;
        }
      }
    }

    /** `push_or_new_reduce_state`: merge into d's bucket, or open one for it. */
    method PushOrNew(e: Fields, d: Discriminant, now: int)
      requires Valid()
      modifies this, states.Values
      ensures Valid() && d in states
      ensures Buckets() == PushOrNewSpec(old(Buckets()), e, d, strategies, now)
    {
      if d in states {
        Join(e, d, now);
      } else {
        Open(e, d, now);
      }
    }

    /** The occupied entry: the event merged into d's bucket, the others untouched. */
    method Join(e: Fields, d: Discriminant, now: int)
      requires Valid() && d in states
      modifies states[d]
      ensures Valid() && d in states
      ensures Buckets() == old(Buckets())[d := AddEventSpec(old(Buckets())[d], e, strategies, now)]
    {
      ghost var before := Buckets();
      var t := states[d];
      t.AddEvent(e, strategies, now);
      forall x | x in states && x != d ensures states[x].View() == before[x] {
        assert states[x] != t;
      }
    }

    /** The vacant entry: a new bucket for d, the others untouched. */
    method Open(e: Fields, d: Discriminant, now: int)
      requires Valid() && d !in states
      modifies this
      ensures Valid() && d in states
      ensures Buckets() == old(Buckets())[d := NewBucket(e, strategies, now)]
    {
      var t := new ReduceState(e, strategies, now);
      states := states[d := t];
    }

    /** `transform_one` for an event that starts a bucket: the old bucket, if any, is flushed and a new one opened. */
    method StartBucket(output: seq<Value>, e: Fields, d: Discriminant, now: int) returns (out: seq<Value>)
      requires Valid()
      modifies this, states.Values
      ensures Valid()
      ensures Buckets() == AfterEvent(old(Buckets()), e, d, StartsHere, strategies, now)
      ensures var emitted := EmittedBy(old(Buckets()), e, d, StartsHere, strategies, now);
        && |out| == |output| + (if emitted.Some? then 1 else 0)
        && out[..|output|] == output
        && (emitted.Some? ==> IsFlushOf(out[|output|], emitted.value.fields))
    {
      ghost var before := Buckets();
      out := output;
      if d in states {
        assert states[d].fields == before[d].fields;
        var event := Take(d);
        out := out + [event];
      }
      assert Buckets() == before - {d};
      PushOrNew(e, d, now);
    }

    /** The bucket of d, or a new one, taken out of the map with the closing event merged in. */
    method CloseBucket(e: Fields, d: Discriminant, now: int) returns (t: ReduceState)
      requires Valid()
      modifies this, states.Values
      ensures Valid()
      ensures Buckets() == old(Buckets()) - {d}
      ensures t.View() == EmittedBy(old(Buckets()), e, d, EndsHere, strategies, now).value
    {
      ghost var before := Buckets();
      if d in states {
        t := Detach(d);
        t.AddEvent(e, strategies, now);
      } else {
        t := new ReduceState(e, strategies, now);
        assert before - {d} == before;
      }
    }

    /** `transform_one` for an event that ends a bucket: it is merged into its bucket, or a new one, which is flushed. */
    method EndBucket(output: seq<Value>, e: Fields, d: Discriminant, now: int) returns (out: seq<Value>)
      requires Valid()
      modifies this, states.Values
      ensures Valid()
      ensures Buckets() == AfterEvent(old(Buckets()), e, d, EndsHere, strategies, now)
      ensures var emitted := EmittedBy(old(Buckets()), e, d, EndsHere, strategies, now);
        && |out| == |output| + 1 && out[..|output|] == output
        && IsFlushOf(out[|output|], emitted.value.fields)
    {
      var t := CloseBucket(e, d, now);
      var event, order := t.Flush();
      out := output + [event];
    }

    /** `transform_one` up to the staleness sweep: the event placed according to its boundary. */
    method PlaceEvent(output: seq<Value>, e: Fields, d: Discriminant, kind: Boundary, now: int) returns (out: seq<Value>)
      requires Valid()
      modifies this, states.Values
      ensures Valid()
      ensures Buckets() == AfterEvent(old(Buckets()), e, d, kind, strategies, now)
      ensures var emitted := EmittedBy(old(Buckets()), e, d, kind, strategies, now);
        && |out| == |output| + (if emitted.Some? then 1 else 0)
        && out[..|output|] == output
        && (emitted.Some? ==> IsFlushOf(out[|output|], emitted.value.fields))
    {
      match kind {
        case StartsHere =>
          out := StartBucket(output, e, d, now);
        case EndsHere =>
          out := EndBucket(output, e, d, now);
        case Inside =>
          PushOrNew(e, d, now);
          out := output;
      }
    }

    /**
     * `transform_one`: the event is placed by its boundary (a start flushes
     * the bucket it would join and opens a new one; an end merges it into its
     * bucket, or a new one, and flushes that; any other event joins its
     * bucket), and then the stale buckets are flushed.
     */
    method TransformOne(output: seq<Value>, e: Fields, now: int) returns (out: seq<Value>, ghost flushed: seq<Discriminant>)
      requires Valid()
      modifies this, states.Values
      ensures Valid()
      ensures
        var d := DiscriminantOf(e, groupBy);
        var kind := BoundaryOf(e, startsWhen, endsWhen);
        var mid := AfterEvent(old(Buckets()), e, d, kind, strategies, now);
        var emitted := EmittedBy(old(Buckets()), e, d, kind, strategies, now);
        var n := |output| + (if emitted.Some? then 1 else 0);
        && Buckets() == Unexpired(mid, now, expireAfter)
        && |out| == n + |flushed| && out[..|output|] == output
        && (emitted.Some? ==> IsFlushOf(out[|output|], emitted.value.fields))
        && Enumerates(flushed, StaleKeys(mid, now, expireAfter))
        && forall j :: 0 <= j < |flushed| ==> IsFlushOf(out[n + j], mid[flushed[j]].fields)
    {
      var d := DiscriminantOf(e, groupBy);
      var kind := BoundaryOf(e, startsWhen, endsWhen);
      out := PlaceEvent(output, e, d, kind, now);
      ghost var n := |out|;
      out, flushed := FlushInto(out, now);
      assert out[..n][..|output|] == output;
    }
  }
}
