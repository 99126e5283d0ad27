/**
 * The event value tree: scalars, maps ordered by key (a BTreeMap) and arrays.
 * A map is a sequence of entries strictly ascending by key, so two maps with
 * the same contents are the same value.
 *
 * get / insert / remove walk the tree one path segment at a time: a field
 * segment needs a map, an index segment needs an array.  Insert creates the
 * missing intermediate containers and grows arrays only at their end.
 */
module Values {
  import opened Base
  import opened Lookup

  datatype Value =
    | Bytes(bytes: string)
    | Integer(n: int)
    | Float(bits: bv64)
    | Boolean(b: bool)
    | Timestamp(t: int)
    | Null
    | Map(entries: seq<Entry>)
    | Array(items: seq<Value>)

  datatype Entry = Entry(key: string, val: Value)

  predicate IsScalar(v: Value) {
    !v.Map? && !v.Array?
  }

  // ---------------------------------------------------------------------------
  // Key order: String's Ord, lexicographic by character

  predicate KeyLess(a: string, b: string)
    decreases |a|
  {
    if a == [] then b != []
    else b != [] && (a[0] < b[0] || (a[0] == b[0] && KeyLess(a[1..], b[1..])))
  }

  lemma {:induction false} KeyLessIrreflexive(a: string)
    ensures !KeyLess(a, a)
    decreases |a|
  {
    if a != [] {
      KeyLessIrreflexive(a[1..]);
    }
  }

  lemma {:induction false} KeyLessTransitive(a: string, b: string, c: string)
    requires KeyLess(a, b) && KeyLess(b, c)
    ensures KeyLess(a, c)
    decreases |a|
  {
    if a != [] && a[0] == b[0] && b[0] == c[0] {
      KeyLessTransitive(a[1..], b[1..], c[1..]);
    }
  }

  lemma {:induction false} KeyLessTotal(a: string, b: string)
    requires a != b
    ensures KeyLess(a, b) || KeyLess(b, a)
    decreases |a|
  {
    if a != [] && b != [] && a[0] == b[0] {
      assert a[1..] != b[1..] by {
        assert a == [a[0]] + a[1..] && b == [b[0]] + b[1..];
      }
      KeyLessTotal(a[1..], b[1..]);
    }
  }

  lemma KeyLessAsymmetric(a: string, b: string)
    requires KeyLess(a, b)
    ensures !KeyLess(b, a)
  {
    if KeyLess(b, a) {
      KeyLessTransitive(a, b, a);
      KeyLessIrreflexive(a);
    }
  }

  // ---------------------------------------------------------------------------
  // Sorted entry lists (the BTreeMap of one map node)

  predicate Sorted(es: seq<Entry>) {
    forall i, j :: 0 <= i < j < |es| ==> KeyLess(es[i].key, es[j].key)
  }

  function Keys(es: seq<Entry>): set<string> {
    if es == [] then {} else {es[0].key} + Keys(es[1..])
  }

  /** Every key of the list is above h. */
  predicate AllAbove(h: string, es: seq<Entry>) {
    forall j :: 0 <= j < |es| ==> KeyLess(h, es[j].key)
  }

  /** The value stored under key k, if any. */
  function Find(es: seq<Entry>, k: string): (r: Option<Value>)
    ensures r.Some? ==> exists i :: 0 <= i < |es| && es[i] == Entry(k, r.value)
    ensures r.None? ==> k !in Keys(es)
  {
    if es == [] then None
    else if es[0].key == k then Some(es[0].val)
    else Find(es[1..], k)
  }

  /** `BTreeMap::insert`: the entry for k is replaced or added in key order. */
  function Put(es: seq<Entry>, k: string, x: Value): seq<Entry> {
    if es == [] then [Entry(k, x)]
    else if es[0].key == k then [Entry(k, x)] + es[1..]
    else if KeyLess(k, es[0].key) then [Entry(k, x)] + es
    else [es[0]] + Put(es[1..], k, x)
  }

  /** `BTreeMap::remove`: the entry for k, if any, is dropped. */
  function Delete(es: seq<Entry>, k: string): seq<Entry> {
    if es == [] then []
    else if es[0].key == k then Delete(es[1..], k)
    else [es[0]] + Delete(es[1..], k)
  }

  lemma {:induction false} KeyInKeys(es: seq<Entry>, j: nat)
    requires j < |es|
    ensures es[j].key in Keys(es)
    decreases |es|
  {
    if j > 0 {
      KeyInKeys(es[1..], j - 1);
    }
  }

  lemma SortedTail(es: seq<Entry>)
    requires Sorted(es) && es != []
    ensures Sorted(es[1..])
    ensures forall j :: 1 <= j < |es| ==> KeyLess(es[0].key, es[j].key)
  {
  }

  lemma SortedCons(e: Entry, es: seq<Entry>)
    requires Sorted(es)
    requires forall j :: 0 <= j < |es| ==> KeyLess(e.key, es[j].key)
    ensures Sorted([e] + es)
  {
    var r := [e] + es;
    forall i, j | 0 <= i < j < |r| ensures KeyLess(r[i].key, r[j].key) {
      if i > 0 {
        assert r[i] == es[i - 1] && r[j] == es[j - 1];
      } else {
        assert r[j] == es[j - 1];
      }
    }
  }

  /** In a sorted list a key smaller than the head is absent. */
  lemma {:induction false} FindBelowHead(es: seq<Entry>, k: string)
    requires Sorted(es) && es != [] && KeyLess(k, es[0].key)
    ensures Find(es, k) == None
    decreases |es|
  {
    KeyLessIrreflexive(k);
    if |es| > 1 {
      SortedTail(es);
      KeyLessTransitive(k, es[0].key, es[1].key);
      FindBelowHead(es[1..], k);
    }
  }

  /** A bound below every old key and below k is below every key after Put. */
  lemma {:induction false} PutAbove(es: seq<Entry>, k: string, x: Value, h: string)
    requires AllAbove(h, es) && KeyLess(h, k)
    ensures AllAbove(h, Put(es, k, x))
    decreases |es|
  {
    var r := Put(es, k, x);
    if es == [] {
    } else if es[0].key == k {
      forall j | 0 <= j < |r| ensures KeyLess(h, r[j].key) {
        if j > 0 {
          assert r[j] == es[j];
        }
      }
    } else if KeyLess(k, es[0].key) {
      forall j | 0 <= j < |r| ensures KeyLess(h, r[j].key) {
        if j > 0 {
          assert r[j] == es[j - 1];
        }
      }
    } else {
      var rest := Put(es[1..], k, x);
      assert AllAbove(h, es[1..]) by {
        forall j | 0 <= j < |es[1..]| ensures KeyLess(h, es[1..][j].key) {
          assert es[1..][j] == es[j + 1];
        }
      }
      PutAbove(es[1..], k, x, h);
      forall j | 0 <= j < |r| ensures KeyLess(h, r[j].key) {
        if j > 0 {
          assert r[j] == rest[j - 1];
        }
      }
    }
  }

  /** Put keeps the list sorted. */
  lemma {:induction false} PutSorted(es: seq<Entry>, k: string, x: Value)
    requires Sorted(es)
    ensures Sorted(Put(es, k, x))
    decreases |es|
  {
    if es == [] {
    } else if es[0].key == k {
      SortedTail(es);
      SortedCons(Entry(k, x), es[1..]);
    } else if KeyLess(k, es[0].key) {
      forall j | 0 <= j < |es| ensures KeyLess(k, es[j].key) {
        if j > 0 {
          KeyLessTransitive(k, es[0].key, es[j].key);
        }
      }
      SortedCons(Entry(k, x), es);
    } else {
      KeyLessTotal(k, es[0].key);
      SortedTail(es);
      PutSorted(es[1..], k, x);
      PutAbove(es[1..], k, x, es[0].key);
      SortedCons(es[0], Put(es[1..], k, x));
    }
  }

  /** The keys after Put are the old keys and k. */
  lemma {:induction false} PutKeys(es: seq<Entry>, k: string, x: Value)
    ensures Keys(Put(es, k, x)) == Keys(es) + {k}
    decreases |es|
  {
    var r := Put(es, k, x);
    if es == [] {
    } else if es[0].key == k {
      assert r[1..] == es[1..];
    } else if KeyLess(k, es[0].key) {
      assert r[1..] == es;
    } else {
      PutKeys(es[1..], k, x);
      assert r[1..] == Put(es[1..], k, x);
    }
  }

  /** After Put, k holds x and every other key holds what it held before. */
  lemma {:induction false} FindPut(es: seq<Entry>, k: string, x: Value, k2: string)
    requires Sorted(es)
    ensures Find(Put(es, k, x), k2) == if k2 == k then Some(x) else Find(es, k2)
    decreases |es|
  {
    if es != [] && es[0].key != k {
      if KeyLess(k, es[0].key) {
        if k2 != k && es[0].key != k2 && KeyLess(k2, es[0].key) {
          FindBelowHead(es, k2);
        }
      } else {
        SortedTail(es);
        FindPut(es[1..], k, x, k2);
      }
    } else if es != [] && k2 != k {
      assert Put(es, k, x)[1..] == es[1..];
    }
  }

  lemma {:induction false} DeleteAbove(es: seq<Entry>, k: string, h: string)
    requires AllAbove(h, es)
    ensures AllAbove(h, Delete(es, k))
    decreases |es|
  {
    if es != [] {
      DeleteAbove(es[1..], k, h);
      var r := Delete(es, k);
      if es[0].key != k {
        assert forall j :: 1 <= j < |r| ==> r[j] == Delete(es[1..], k)[j - 1];
      }
    }
  }

  /** Delete keeps the list sorted. */
  lemma {:induction false} DeleteSorted(es: seq<Entry>, k: string)
    requires Sorted(es)
    ensures Sorted(Delete(es, k))
    decreases |es|
  {
    if es != [] {
      SortedTail(es);
      DeleteSorted(es[1..], k);
      if es[0].key != k {
        DeleteAbove(es[1..], k, es[0].key);
        SortedCons(es[0], Delete(es[1..], k));
      }
    }
  }

  /** The keys after Delete are the old keys but k. */
  lemma {:induction false} DeleteKeys(es: seq<Entry>, k: string)
    ensures Keys(Delete(es, k)) == Keys(es) - {k}
    decreases |es|
  {
    if es != [] {
      DeleteKeys(es[1..], k);
      if es[0].key != k {
        assert Delete(es, k)[1..] == Delete(es[1..], k);
      }
    }
  }

  /** After Delete, k is absent and every other key holds what it held before. */
  lemma {:induction false} FindDelete(es: seq<Entry>, k: string, k2: string)
    ensures Find(Delete(es, k), k2) == if k2 == k then None else Find(es, k2)
    decreases |es|
  {
    if es != [] {
      FindDelete(es[1..], k, k2);
    }
  }

  // ---------------------------------------------------------------------------
  // Well-formed trees: every map node is sorted

  predicate WellFormed(v: Value)
    decreases v
  {
    match v
    case Map(es) => Sorted(es) && EntriesWellFormed(es)
    case Array(xs) => ItemsWellFormed(xs)
    case _ => true
  }

  predicate EntriesWellFormed(es: seq<Entry>)
    decreases es
  {
    forall i :: 0 <= i < |es| ==> WellFormed(es[i].val)
  }

  predicate ItemsWellFormed(xs: seq<Value>)
    decreases xs
  {
    forall i :: 0 <= i < |xs| ==> WellFormed(xs[i])
  }

  // ---------------------------------------------------------------------------
  // get / insert / remove by path

  /** The value at path p, or None when a step is missing or has the wrong kind. */
  function Get(v: Value, p: seq<Segment>): Option<Value>
    decreases |p|
  {
    if p == [] then Some(v)
    else
      match p[0]
      case Field(k) =>
        if !v.Map? then None
        else (match Find(v.entries, k) case None => None case Some(c) => Get(c, p[1..]))
      case Index(i) =>
        if !v.Array? || i >= |v.items| then None else Get(v.items[i], p[1..])
  }

  /** The container an insert creates for a missing step: a map before a field, an array before an index. */
  function EmptyFor(seg: Segment): Value {
    match seg
    case Field(_) => Map([])
    case Index(_) => Array([])
  }

  /**
   * `insert(path, x)`: the tree with x at p.  None when a step meets a node of
   * the wrong kind or an index beyond the end of an array (arrays grow only by
   * appending at index |items|).
   */
  function Insert(v: Value, p: seq<Segment>, x: Value): Option<Value>
    requires p != []
    decreases |p|
  {
    match p[0]
    case Field(k) =>
      if !v.Map? then None
      else
        var child := if |p| == 1 then Some(x)
                     else Insert(Find(v.entries, k).GetOr(EmptyFor(p[1])), p[1..], x);
        (match child
         case None => None
         case Some(c) => Some(Map(Put(v.entries, k, c))))
    case Index(i) =>
      if !v.Array? || i > |v.items| then None
      else
        var child := if |p| == 1 then Some(x)
                     else Insert(if i < |v.items| then v.items[i] else EmptyFor(p[1]), p[1..], x);
        (match child
         case None => None
         case Some(c) => Some(Array(if i < |v.items| then v.items[i := c] else v.items + [c])))
  }

  predicate IsEmptyContainer(v: Value) {
    v == Map([]) || v == Array([])
  }

  /**
   * `remove(path, prune)`: the tree without the value at p, and that value.
   * With prune, a map or array left empty by the removal is removed from its
   * parent as well.
   */
  function Remove(v: Value, p: seq<Segment>, prune: bool): (Value, Option<Value>)
    requires p != []
    decreases |p|
  {
    match p[0]
    case Field(k) =>
      if !v.Map? then (v, None)
      else
        (match Find(v.entries, k)
         case None => (v, None)
         case Some(c) =>
           if |p| == 1 then (Map(Delete(v.entries, k)), Some(c))
           else
             var (c2, r) := Remove(c, p[1..], prune);
             if r.None? then (v, None)
             else if prune && IsEmptyContainer(c2) then (Map(Delete(v.entries, k)), r)
             else (Map(Put(v.entries, k, c2)), r))
    case Index(i) =>
      if !v.Array? || i >= |v.items| then (v, None)
      else
        var xs := v.items;
        if |p| == 1 then (Array(xs[..i] + xs[i + 1..]), Some(xs[i]))
        else
          var (c2, r) := Remove(xs[i], p[1..], prune);
          if r.None? then (v, None)
          else if prune && IsEmptyContainer(c2) then (Array(xs[..i] + xs[i + 1..]), r)
          else (Array(xs[i := c2]), r)
  }

  // ---------------------------------------------------------------------------
  // Laws of get / insert / remove

  /** What insert stored is what get finds. */
  lemma {:induction false} GetInsert(v: Value, p: seq<Segment>, x: Value)
    requires p != [] && Insert(v, p, x).Some?
    requires WellFormed(v)
    ensures Get(Insert(v, p, x).value, p) == Some(x)
    decreases |p|
  {
    var r := Insert(v, p, x).value;
    match p[0]
    case Field(k) =>
      var es := v.entries;
      var c := if |p| == 1 then x else Insert(Find(es, k).GetOr(EmptyFor(p[1])), p[1..], x).value;
      assert r == Map(Put(es, k, c));
      FindPut(es, k, c, k);
      if |p| > 1 {
        var old_c := Find(es, k).GetOr(EmptyFor(p[1]));
        assert WellFormed(old_c) by {
          if Find(es, k).Some? {
            var i :| 0 <= i < |es| && es[i] == Entry(k, old_c);
          }
        }
        GetInsert(old_c, p[1..], x);
      }
    case Index(i) =>
      var xs := v.items;
      if |p| > 1 {
        var old_c := if i < |xs| then xs[i] else EmptyFor(p[1]);
        GetInsert(old_c, p[1..], x);
      }
  }

  /** A one-field path into a map always succeeds: the field is put into the entries. */
  lemma InsertTopField(es: seq<Entry>, k: string, x: Value)
    ensures Insert(Map(es), [Field(k)], x) == Some(Map(Put(es, k, x)))
  {
  }

  /** Get along a one-field path is a lookup in the entries. */
  lemma GetTopField(es: seq<Entry>, k: string)
    ensures Get(Map(es), [Field(k)]) == Find(es, k)
  {
  }

  /** Inserting under one top-level key leaves every other top-level key as it was. */
  lemma InsertOtherKey(v: Value, p: seq<Segment>, x: Value, q: seq<Segment>)
    requires p != [] && p[0].Field? && q != [] && q[0].Field? && p[0].name != q[0].name
    requires v.Map? && Sorted(v.entries) && Insert(v, p, x).Some?
    ensures Get(Insert(v, p, x).value, q) == Get(v, q)
  {
    var k := p[0].name;
    var es := v.entries;
    var c := if |p| == 1 then x else Insert(Find(es, k).GetOr(EmptyFor(p[1])), p[1..], x).value;
    FindPut(es, k, c, q[0].name);
  }

  /** A one-field insert into a sorted map leaves a sorted map. */
  lemma InsertRootSorted(v: Value, p: seq<Segment>, x: Value)
    requires p != [] && p[0].Field? && v.Map? && Sorted(v.entries) && Insert(v, p, x).Some?
    ensures Insert(v, p, x).value.Map? && Sorted(Insert(v, p, x).value.entries)
  {
    var k := p[0].name;
    var es := v.entries;
    var c := if |p| == 1 then x else Insert(Find(es, k).GetOr(EmptyFor(p[1])), p[1..], x).value;
    PutSorted(es, k, c);
  }

  /** Removing along a field path only touches the entry of its first key: kept, dropped or replaced. */
  lemma RemoveRootShape(v: Value, p: seq<Segment>, prune: bool)
    requires p != [] && p[0].Field? && v.Map?
    ensures var r := Remove(v, p, prune).0;
      || r == v
      || r == Map(Delete(v.entries, p[0].name))
      || (Find(v.entries, p[0].name).Some? && |p| > 1 &&
          r == Map(Put(v.entries, p[0].name, Remove(Find(v.entries, p[0].name).value, p[1..], prune).0)))
  {
  }

  /** A path below a top-level key reads the same in two maps that agree on that key. */
  lemma GetSameEntry(es: seq<Entry>, es2: seq<Entry>, q: seq<Segment>)
    requires q != [] && q[0].Field? && Find(es2, q[0].name) == Find(es, q[0].name)
    ensures Get(Map(es2), q) == Get(Map(es), q)
  {
  }

  /** Removing under one top-level key leaves every other top-level key as it was, and the root a sorted map. */
  lemma RemoveOtherKey(v: Value, p: seq<Segment>, prune: bool, q: seq<Segment>)
    requires p != [] && p[0].Field? && q != [] && q[0].Field? && p[0].name != q[0].name
    requires v.Map? && Sorted(v.entries)
    ensures Get(Remove(v, p, prune).0, q) == Get(v, q)
    ensures Remove(v, p, prune).0.Map? && Sorted(Remove(v, p, prune).0.entries)
  {
    var k := p[0].name;
    var es := v.entries;
    var r := Remove(v, p, prune).0;
    RemoveRootShape(v, p, prune);
    if r == Map(Delete(es, k)) {
      FindDelete(es, k, q[0].name);
      DeleteSorted(es, k);
      GetSameEntry(es, r.entries, q);
    } else if r != v {
      var c2 := Remove(Find(es, k).value, p[1..], prune).0;
      FindPut(es, k, c2, q[0].name);
      PutSorted(es, k, c2);
      GetSameEntry(es, r.entries, q);
    }
  }

  /** A key above every key of a sorted list is put at its end. */
  lemma {:induction false} PutAtEnd(es: seq<Entry>, k: string, x: Value)
    requires forall i :: 0 <= i < |es| ==> KeyLess(es[i].key, k)
    ensures Put(es, k, x) == es + [Entry(k, x)]
    decreases |es|
  {
    if es != [] {
      KeyLessIrreflexive(k);
      KeyLessAsymmetric(es[0].key, k);
      PutAtEnd(es[1..], k, x);
      assert [es[0]] + (es[1..] + [Entry(k, x)]) == es + [Entry(k, x)];
    }
  }

  /** Insert keeps every map node of a well-formed tree sorted. */
  lemma {:induction false} InsertWellFormed(v: Value, p: seq<Segment>, x: Value)
    requires p != [] && Insert(v, p, x).Some?
    requires WellFormed(v) && WellFormed(x)
    ensures WellFormed(Insert(v, p, x).value)
    decreases |p|
  {
    var r := Insert(v, p, x).value;
    match p[0]
    case Field(k) =>
      var es := v.entries;
      var old_c := Find(es, k).GetOr(EmptyFor(p[1 % |p|]));
      var c := if |p| == 1 then x else Insert(old_c, p[1..], x).value;
      if |p| > 1 {
        assert WellFormed(old_c) by {
          if Find(es, k).Some? {
            var i :| 0 <= i < |es| && es[i] == Entry(k, old_c);
          }
        }
        InsertWellFormed(old_c, p[1..], x);
      }
      PutSorted(es, k, c);
      PutWellFormed(es, k, c);
    case Index(i) =>
      var xs := v.items;
      if |p| > 1 {
        var old_c := if i < |xs| then xs[i] else EmptyFor(p[1]);
        InsertWellFormed(old_c, p[1..], x);
      }
  }

  lemma {:induction false} PutWellFormed(es: seq<Entry>, k: string, x: Value)
    requires EntriesWellFormed(es) && WellFormed(x)
    ensures EntriesWellFormed(Put(es, k, x))
    decreases |es|
  {
    if es != [] && es[0].key != k && !KeyLess(k, es[0].key) {
      PutWellFormed(es[1..], k, x);
    }
  }

  lemma {:induction false} DeleteWellFormed(es: seq<Entry>, k: string)
    requires EntriesWellFormed(es)
    ensures EntriesWellFormed(Delete(es, k))
    decreases |es|
  {
    if es != [] {
      DeleteWellFormed(es[1..], k);
    }
  }

  /** remove hands back exactly what get finds at the same path. */
  lemma {:induction false} RemoveReturnsGet(v: Value, p: seq<Segment>, prune: bool)
    requires p != []
    ensures Remove(v, p, prune).1 == Get(v, p)
    decreases |p|
  {
    if |p| > 1 {
      match p[0]
      case Field(k) =>
        if v.Map? && Find(v.entries, k).Some? {
          RemoveReturnsGet(Find(v.entries, k).value, p[1..], prune);
        }
      case Index(i) =>
        if v.Array? && i < |v.items| {
          RemoveReturnsGet(v.items[i], p[1..], prune);
        }
    }
  }

  /** After removing at a path of fields, get finds nothing there. */
  lemma {:induction false} GetAfterRemove(v: Value, p: seq<Segment>, prune: bool)
    requires p != [] && (forall i :: 0 <= i < |p| ==> p[i].Field?) && WellFormed(v)
    ensures Get(Remove(v, p, prune).0, p) == None
    decreases |p|
  {
    var k := p[0].name;
    if v.Map? && Find(v.entries, k).Some? {
      var es := v.entries;
      var c := Find(es, k).value;
      if |p| == 1 {
        FindDelete(es, k, k);
      } else {
        var (c2, r2) := Remove(c, p[1..], prune);
        if r2.None? {
          RemoveReturnsGet(c, p[1..], prune);
        } else if prune && IsEmptyContainer(c2) {
          FindDelete(es, k, k);
        } else {
          FindPut(es, k, c2, k);
          assert WellFormed(c) by {
            var i :| 0 <= i < |es| && es[i] == Entry(k, c);
          }
          GetAfterRemove(c, p[1..], prune);
        }
      }
    }
  }
}
