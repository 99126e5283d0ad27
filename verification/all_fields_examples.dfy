/**
 * The two walks exercised alongside `all_fields`: a flat object whose keys
 * arrive out of order, and a nested object mixing maps and arrays.  Objects
 * are built key by key with `Put`, the way a JSON object is collected into a
 * `BTreeMap`, so the key order below is the map's own.
 */
module AllFieldsExamples {
  import opened Lookup
  import opened Values
  import opened AllFields
  import LookupExamples

  // ---------------------------------------------------------------------------
  // keys_simple

  const SimpleFields: seq<Entry> :=
    Put(Put(Put([], "field2", Integer(3)), "field1", Integer(4)), "field3", Integer(5))

  lemma SimpleFieldsSorted()
    ensures SimpleFields == [Entry("field1", Integer(4)), Entry("field2", Integer(3)), Entry("field3", Integer(5))]
  {
    SimpleKeysOrdered();
  }

  lemma SimpleKeysOrdered()
    ensures KeyLess("field1", "field2") && KeyLess("field2", "field3")
  {
    assert KeyLess("field1", "field2") by {
      assert "field1"[5..] == "1" && "field2"[5..] == "2";
      KeyLessCommonPrefix("field", "1", "2");
      assert "field" + "1" == "field1" && "field" + "2" == "field2";
    }
    assert KeyLess("field2", "field3") by {
      KeyLessCommonPrefix("field", "2", "3");
      assert "field" + "2" == "field2" && "field" + "3" == "field3";
    }
  }

  /** Keys sharing a prefix compare as their remainders do. */
  lemma {:induction false} KeyLessCommonPrefix(p: string, a: string, b: string)
    requires KeyLess(a, b)
    ensures KeyLess(p + a, p + b)
    decreases |p|
  {
    if p != [] {
      KeyLessCommonPrefix(p[1..], a, b);
      assert (p + a)[0] == p[0] == (p + b)[0];
      assert (p + a)[1..] == p[1..] + a && (p + b)[1..] == p[1..] + b;
    } else {
      assert p + a == a && p + b == b;
    }
  }

  /** The flat object yields its three keys in ascending order. */
  lemma KeysSimple()
    ensures Rendered(EntriesLeaves([], SimpleFields))
         == [("field1", Integer(4)), ("field2", Integer(3)), ("field3", Integer(5))]
  {
    SimpleFieldsSorted();
    FlatMapLeaves(SimpleFields);
  }

  // ---------------------------------------------------------------------------
  // keys_nested

  const Inner: seq<Entry> :=
    Put(Put(Put([], "b", Map([Entry("c", Integer(5))])), "a", Integer(4)), "array", Arr)

  const Arr: Value := Array([Null, Integer(3), Map([Entry("x", Integer(1))]), Array([Integer(2)])])

  const NestedFields: seq<Entry> := [Entry("a", Map(Inner))]

  lemma InnerSorted()
    ensures Inner == [Entry("a", Integer(4)), Entry("array", Arr), Entry("b", Map([Entry("c", Integer(5))]))]
  {
    assert KeyLess("a", "b");
    assert KeyLess("a", "array") by {
      assert "a"[1..] == [] && "array"[1..] != [];
    }
    assert KeyLess("array", "b");
  }

  const A: Segment := Field("a")
  const ArrayKey: Segment := Field("array")

  /** Two scalars at the front of the items are two leaves, at indices 0 and 1. */
  lemma ArrayFront(q: seq<Segment>, xs: seq<Value>)
    requires |xs| >= 2 && IsScalar(xs[0]) && IsScalar(xs[1])
    ensures ItemsLeaves(q, xs, 0)
         == [(q + [Index(0)], xs[0]), (q + [Index(1)], xs[1])] + ItemsLeaves(q, xs[2..], 2)
  {
    var a, b := (q + [Index(0)], xs[0]), (q + [Index(1)], xs[1]);
    var rest := ItemsLeaves(q, xs[2..], 2);
    ScalarItem(q, xs, 0);
    ScalarItem(q, xs[1..], 1);
    assert xs[1..][1..] == xs[2..];
    assert [a] + ([b] + rest) == [a, b] + rest;
  }


  /** A scalar at the head of the items is one leaf, at its index. */
  lemma ScalarItem(q: seq<Segment>, xs: seq<Value>, i: nat)
    requires xs != [] && IsScalar(xs[0])
    ensures ItemsLeaves(q, xs, i) == [(q + [Index(i)], xs[0])] + ItemsLeaves(q, xs[1..], i + 1)
  {
  }


  /** The last two elements hold one scalar each, one level further down. */
  lemma ArrayBack(q: seq<Segment>)
    ensures ItemsLeaves(q, Arr.items[2..], 2)
         == [(q + [Index(2), Field("x")], Integer(1)), (q + [Index(3), Index(0)], Integer(2))]
  {
    var xs := Arr.items[2..];
    assert xs == [Map([Entry("x", Integer(1))]), Array([Integer(2)])];
    assert xs[1..][1..] == [];
    var q2, q3 := q + [Index(2)], q + [Index(3)];
    assert q2 + [Field("x")] == q + [Index(2), Field("x")];
    assert q3 + [Index(0)] == q + [Index(3), Index(0)];
    assert LeavesOf(q2, xs[0]) == [(q2 + [Field("x")], Integer(1))];
    assert LeavesOf(q3, xs[1]) == [(q3 + [Index(0)], Integer(2))];
    assert ItemsLeaves(q, xs[1..], 3) == LeavesOf(q3, xs[1]) + [];
  }

  /** The leaves under the array, as paths. */
  lemma ArrayLeaves(q: seq<Segment>)
    ensures LeavesOf(q, Arr) == [
      (q + [Index(0)], Null),
      (q + [Index(1)], Integer(3)),
      (q + [Index(2), Field("x")], Integer(1)),
      (q + [Index(3), Index(0)], Integer(2))]
  {
    ArrayFront(q, Arr.items);
    ArrayBack(q);
  }

  /** The inner object: "a", then everything under "array", then "b.c". */
  lemma InnerLeaves(q: seq<Segment>)
    ensures EntriesLeaves(q, Inner)
         == [(q + [A], Integer(4))] + LeavesOf(q + [ArrayKey], Arr) + [(q + [Field("b"), Field("c")], Integer(5))]
  {
    InnerSorted();
    var es := Inner;
    assert es[1..][1..] == [Entry("b", Map([Entry("c", Integer(5))]))];
    assert q + [Field("b")] + [Field("c")] == q + [Field("b"), Field("c")];
    assert EntriesLeaves(q, es[1..][1..]) == [(q + [Field("b"), Field("c")], Integer(5))];
  }

  /** The nested object yields six scalars, depth first, keys ascending. */
  lemma KeysNestedPaths()
    ensures EntriesLeaves([], NestedFields) == [
      ([A, A], Integer(4)),
      ([A, ArrayKey, Index(0)], Null),
      ([A, ArrayKey, Index(1)], Integer(3)),
      ([A, ArrayKey, Index(2), Field("x")], Integer(1)),
      ([A, ArrayKey, Index(3), Index(0)], Integer(2)),
      ([A, Field("b"), Field("c")], Integer(5))]
  {
    assert [] + [A] == [A];
    assert EntriesLeaves([], NestedFields) == EntriesLeaves([A], Inner) + [];
    InnerLeaves([A]);
    ArrayLeaves([A, ArrayKey]);
    NestedPathJoins();
  }

  lemma NestedPathJoins()
    ensures [A] + [A] == [A, A]
    ensures [A] + [ArrayKey] == [A, ArrayKey]
    ensures [A] + [Field("b"), Field("c")] == [A, Field("b"), Field("c")]
    ensures [A, ArrayKey] + [Index(0)] == [A, ArrayKey, Index(0)]
    ensures [A, ArrayKey] + [Index(1)] == [A, ArrayKey, Index(1)]
    ensures [A, ArrayKey] + [Index(2), Field("x")] == [A, ArrayKey, Index(2), Field("x")]
    ensures [A, ArrayKey] + [Index(3), Index(0)] == [A, ArrayKey, Index(3), Index(0)]
  {
  }

  /** An index below ten renders as its one digit in brackets. */
  lemma DigitPiece(n: nat)
    requires n < 10
    ensures Piece(Index(n), true) == ['[', DigitChar(n), ']']
  {
  }

  lemma NestedRendersFirst()
    ensures Render([A, A]) == "a.a"
    ensures Render([A, ArrayKey, Index(0)]) == "a.array[0]"
    ensures Render([A, ArrayKey, Index(1)]) == "a.array[1]"
  {
    LookupExamples.RenderPair(A, A);
    LookupExamples.RenderTriple(A, ArrayKey, Index(0));
    LookupExamples.RenderTriple(A, ArrayKey, Index(1));
    DigitPiece(0);
    DigitPiece(1);
  }

  lemma NestedRenderX()
    ensures Render([A, ArrayKey, Index(2), Field("x")]) == "a.array[2].x"
  {
    LookupExamples.RenderTriple(A, ArrayKey, Index(2));
    DigitPiece(2);
    assert Render([A, ArrayKey, Index(2)]) == "a.array[2]";
    RenderSnoc([A, ArrayKey, Index(2)], Field("x"));
    assert [A, ArrayKey, Index(2)] + [Field("x")] == [A, ArrayKey, Index(2), Field("x")];
  }

  lemma NestedRenderInner()
    ensures Render([A, ArrayKey, Index(3), Index(0)]) == "a.array[3][0]"
  {
    LookupExamples.RenderTriple(A, ArrayKey, Index(3));
    DigitPiece(3);
    DigitPiece(0);
    assert Render([A, ArrayKey, Index(3)]) == "a.array[3]";
    RenderSnoc([A, ArrayKey, Index(3)], Index(0));
    assert [A, ArrayKey, Index(3)] + [Index(0)] == [A, ArrayKey, Index(3), Index(0)];
  }

  lemma NestedRenderC()
    ensures Render([A, Field("b"), Field("c")]) == "a.b.c"
  {
    LookupExamples.RenderTriple(A, Field("b"), Field("c"));
  }

  /** What `all_fields` yields for the nested object, paths rendered. */
  lemma KeysNested()
    ensures Rendered(EntriesLeaves([], NestedFields)) == [
      ("a.a", Integer(4)),
      ("a.array[0]", Null),
      ("a.array[1]", Integer(3)),
      ("a.array[2].x", Integer(1)),
      ("a.array[3][0]", Integer(2)),
      ("a.b.c", Integer(5))]
  {
    KeysNestedPaths();
    NestedRendersFirst();
    NestedRenderX();
    NestedRenderInner();
    NestedRenderC();
  }
}
