/**
 * `all_fields`: a depth-first walk over a log event's fields that yields every
 * scalar with its rendered path ("a.b[0].c"), map keys in ascending order and
 * array elements in index order.  The walk keeps an explicit stack of
 * partially consumed map and array iterators and, beside it, the path from
 * the root to the top iterator.
 *
 * Its specification is the pre-order leaf list `EntriesLeaves([], fields)`:
 * the iterator hands out exactly that list, one leaf per `Next`.
 */
module AllFields {
  import opened Base
  import opened Lookup
  import opened Values

  /** A leaf: the segments leading to a scalar, and the scalar. */
  type Leaf = (seq<Segment>, Value)

  /** A partially consumed iterator: what it has still to yield, and for an array the next index. */
  datatype LeafIter = MapIter(rest: seq<Entry>) | ArrayIter(elems: seq<Value>, next: nat)

  // ---------------------------------------------------------------------------
  // Specification: the pre-order leaf list

  /** The scalars under v, each with its path, v itself being at `prefix`. */
  function LeavesOf(prefix: seq<Segment>, v: Value): seq<Leaf>
    decreases v, 1
  {
    match v
    case Map(es) => EntriesLeaves(prefix, es)
    case Array(xs) => ItemsLeaves(prefix, xs, 0)
    case _ => [(prefix, v)]
  }

  /** The leaves under the entries of one map node, in entry order. */
  function EntriesLeaves(prefix: seq<Segment>, es: seq<Entry>): seq<Leaf>
    decreases es, 0
  {
    if es == [] then []
    else LeavesOf(prefix + [Field(es[0].key)], es[0].val) + EntriesLeaves(prefix, es[1..])
  }

  /** The leaves under array elements numbered from `start`, in index order. */
  function ItemsLeaves(prefix: seq<Segment>, xs: seq<Value>, start: nat): seq<Leaf>
    decreases xs, 0
  {
    if xs == [] then []
    else LeavesOf(prefix + [Index(start)], xs[0]) + ItemsLeaves(prefix, xs[1..], start + 1)
  }

  /** The leaves one iterator frame still owes, its container being at `prefix`. */
  function FrameLeaves(f: LeafIter, prefix: seq<Segment>): seq<Leaf> {
    match f
    case MapIter(rest) => EntriesLeaves(prefix, rest)
    case ArrayIter(xs, n) => ItemsLeaves(prefix, xs, n)
  }

  /** `stack` and `path` move together: one more frame than components while the walk is live. */
  predicate Shaped(stack: seq<LeafIter>, path: seq<Segment>) {
    |stack| == |path| + 1 || (stack == [] && path == [])
  }

  /** Everything still to be yielded: the top frame's leaves first, then the frames below. */
  function Rem(stack: seq<LeafIter>, path: seq<Segment>): seq<Leaf>
    requires Shaped(stack, path)
    decreases |stack|
  {
    if stack == [] then []
    else if |stack| == 1 then FrameLeaves(stack[0], path)
    else FrameLeaves(stack[|stack| - 1], path) + Rem(stack[..|stack| - 1], path[..|path| - 1])
  }

  /** The (rendered path, scalar) pairs the iterator yields for a list of leaves. */
  function Rendered(ls: seq<Leaf>): (r: seq<(string, Value)>)
    ensures |r| == |ls|
    ensures forall i :: 0 <= i < |ls| ==> r[i] == (Render(ls[i].0), ls[i].1)
  {
    if ls == [] then [] else [(Render(ls[0].0), ls[0].1)] + Rendered(ls[1..])
  }

  // ---------------------------------------------------------------------------
  // Termination measure: the nodes not yet visited

  function Size(v: Value): nat
    decreases v, 1
  {
    match v
    case Map(es) => EntriesSize(es)
    case Array(xs) => ItemsSize(xs)
    case _ => 0
  }

  function EntriesSize(es: seq<Entry>): nat
    decreases es, 0
  {
    if es == [] then 0 else 1 + Size(es[0].val) + EntriesSize(es[1..])
  }

  function ItemsSize(xs: seq<Value>): nat
    decreases xs, 0
  {
    if xs == [] then 0 else 1 + Size(xs[0]) + ItemsSize(xs[1..])
  }

  function FrameSize(f: LeafIter): nat {
    match f
    case MapIter(rest) => EntriesSize(rest)
    case ArrayIter(xs, _) => ItemsSize(xs)
  }

  function StackSize(stack: seq<LeafIter>): nat {
    if stack == [] then 0 else StackSize(stack[..|stack| - 1]) + FrameSize(stack[|stack| - 1])
  }

  lemma StackSizePush(stack: seq<LeafIter>, f: LeafIter)
    ensures StackSize(stack + [f]) == StackSize(stack) + FrameSize(f)
  {
    assert (stack + [f])[..|stack|] == stack;
  }

  /** A vector without its last element; `Vec::pop` on an empty vector leaves it empty. */
  function Popped<T>(s: seq<T>): seq<T> {
    if s == [] then [] else s[..|s| - 1]
  }

  // ---------------------------------------------------------------------------
  // How the remaining list changes under the iterator's steps

  /** Popping an exhausted top frame loses no leaf. */
  lemma RemPop(stack: seq<LeafIter>, path: seq<Segment>)
    requires Shaped(stack, path) && stack != []
    requires FrameLeaves(stack[|stack| - 1], path) == []
    ensures Shaped(Popped(stack), Popped(path))
    ensures Rem(Popped(stack), Popped(path)) == Rem(stack, path)
    ensures StackSize(Popped(stack)) <= StackSize(stack)
  {
    if |stack| > 1 {
      assert Rem(stack, path) == [] + Rem(Popped(stack), Popped(path));
    }
  }

  /** Advancing the top frame past a child moves the child's leaves out of the remaining list. */
  lemma AdvanceAccount(s: seq<LeafIter>, s': seq<LeafIter>, path: seq<Segment>, c: Segment, v: Value)
    requires Shaped(s, path) && s != [] && |s'| == |s|
    requires s'[..|s| - 1] == s[..|s| - 1]
    requires FrameLeaves(s[|s| - 1], path) == LeavesOf(path + [c], v) + FrameLeaves(s'[|s| - 1], path)
    requires FrameSize(s[|s| - 1]) == 1 + Size(v) + FrameSize(s'[|s| - 1])
    ensures Rem(s, path) == LeavesOf(path + [c], v) + Rem(s', path)
    ensures StackSize(s) == StackSize(s') + 1 + Size(v)
  {
    if |s| > 1 {
      ConcatAssoc(LeavesOf(path + [c], v), FrameLeaves(s'[|s| - 1], path), Rem(s[..|s| - 1], path[..|path| - 1]));
    }
  }

  /** The frame pushed for a map or array child owes exactly the child's leaves. */
  lemma PushAccount(s: seq<LeafIter>, p: seq<Segment>, child: Value, f: LeafIter, c: Segment)
    requires |s| == |p| + 1
    requires (child.Map? && f == MapIter(child.entries)) || (child.Array? && f == ArrayIter(child.items, 0))
    ensures Shaped(s + [f], p + [c])
    ensures Rem(s + [f], p + [c]) == LeavesOf(p + [c], child) + Rem(s, p)
    ensures StackSize(s + [f]) == StackSize(s) + Size(child)
  {
    assert (s + [f])[..|s|] == s;
    assert (p + [c])[..|p|] == p;
    StackSizePush(s, f);
  }

  // ---------------------------------------------------------------------------
  // The iterator

  class FieldsIter {
    /** Iterators for the depth-first walk, innermost last. */
    var stack: seq<LeafIter>
    /** Components from the root to the container of the top iterator. */
    var path: seq<Segment>

    predicate Valid()
      reads this
    {
      Shaped(stack, path)
    }

    function Remaining(): seq<Leaf>
      reads this
      requires Valid()
    {
      Rem(stack, path)
    }

    function Measure(): nat
      reads this
    {
      2 * StackSize(stack) + |stack|
    }

    /** `FieldsIter::new`: one iterator over the top-level fields, empty path. */
    constructor (fields: seq<Entry>)
      ensures stack == [MapIter(fields)] && path == []
      ensures Valid() && Remaining() == EntriesLeaves([], fields)
    {
      stack := [MapIter(fields)];
      path := [];
    }

    /**
     * `push`: a map or array child gets its own iterator and its component is
     * appended to the path; a scalar is handed back and nothing changes.
     */
    method Push(value: Value, component: Segment) returns (scalar: Option<Value>)
      modifies this
      ensures IsScalar(value) ==> scalar == Some(value) && stack == old(stack) && path == old(path)
      ensures value.Map? ==>
        scalar == None && stack == old(stack) + [MapIter(value.entries)] && path == old(path) + [component]
      ensures value.Array? ==>
        scalar == None && stack == old(stack) + [ArrayIter(value.items, 0)] && path == old(path) + [component]
    {
      match value
      case Map(es) =>
        stack := stack + [MapIter(es)];
        path := path + [component];
        scalar := None;
      case Array(xs) =>
        stack := stack + [ArrayIter(xs, 0)];
        path := path + [component];
        scalar := None;
      case _ =>
        scalar := Some(value);
    }

    /** `pop`: both stacks lose their last element. */
    method Pop()
      modifies this
      ensures stack == Popped(old(stack)) && path == Popped(old(path))
    {
      if stack != [] {
        stack := stack[..|stack| - 1];
      }
      if path != [] {
        path := path[..|path| - 1];
      }
    }

    /**
     * `make_path`: the current path followed by `component`, with '.' before
     * every field that follows another component and `[i]` for each index.
     */
    method MakePath(component: Segment) returns (res: string)
      ensures res == Render(path + [component])
    {
      res := JoinComponents(path + [component]);
    }

    /**
     * The top iterator's own `next`: the next child of the map or array on top
     * of the stack with its component, the frame advancing past it; None when
     * that container is exhausted.
     */
    method NextChild() returns (item: Option<(Segment, Value)>)
      requires Valid() && stack != []
      modifies this
      ensures |stack| == old(|stack|) && path == old(path)
      ensures item.None? ==>
        stack == old(stack) && FrameLeaves(stack[|stack| - 1], path) == []
      ensures item.Some? ==>
        && stack[..|stack| - 1] == old(stack)[..|stack| - 1]
        && FrameLeaves(old(stack)[|stack| - 1], path)
           == LeavesOf(path + [item.value.0], item.value.1) + FrameLeaves(stack[|stack| - 1], path)
        && FrameSize(old(stack)[|stack| - 1]) == 1 + Size(item.value.1) + FrameSize(stack[|stack| - 1])
    {
      var n := |stack|;
      match stack[n - 1]
      case MapIter(rest) =>
        if rest == [] {
          item := None;
        } else {
          stack := stack[n - 1 := MapIter(rest[1..])];
          item := Some((Field(rest[0].key), rest[0].val));
          assert stack[..n - 1] == old(stack)[..n - 1];
        }
      case ArrayIter(xs, i) =>
        if xs == [] {
          item := None;
        } else {
          stack := stack[n - 1 := ArrayIter(xs[1..], i + 1)];
          item := Some((Index(i), xs[0]));
          assert stack[..n - 1] == old(stack)[..n - 1];
        }
    }

    /**
     * `Iterator::next`: takes children from the top iterator, descending into
     * maps and arrays and popping exhausted iterators, until a scalar is found;
     * that scalar and its rendered path are the first remaining leaf.  None
     * exactly when nothing remains, and then the stack is empty.
     */
    method Next() returns (r: Option<(string, Value)>)
      requires Valid()
      modifies this
      ensures Valid()
      ensures r.None? ==> old(Remaining()) == [] && stack == [] && Remaining() == []
      ensures r.Some? ==>
        && old(Remaining()) != []
        && r.value == (Render(old(Remaining())[0].0), old(Remaining())[0].1)
        && Remaining() == old(Remaining())[1..]
        && Measure() < old(Measure())
    {
      while true
        invariant Valid()
        invariant Remaining() == old(Remaining())
        invariant Measure() <= old(Measure())
        decreases Measure()
      {
        if stack == [] {
          return None;
        }
        ghost var s, p := stack, path;
        var item := NextChild();
        match item {
          case None =>
            RemPop(s, p);
            Pop();
          case Some(child) =>
            var (c, v) := child;
            AdvanceAccount(s, stack, p, c, v);
            ghost var s' := stack;
            var scalar := Push(v, c);
            if v.Map? {
              PushAccount(s', p, v, MapIter(v.entries), c);
            } else if v.Array? {
              PushAccount(s', p, v, ArrayIter(v.items, 0), c);
            }
            if scalar.Some? {
              var text := MakePath(c);
              return Some((text, scalar.value));
            }
        }
      }
    }
  }

  /** The separator `make_path` has already written before component i. */
  function Separator(full: seq<Segment>, i: nat): string {
    if 0 < i < |full| && full[i].Field? then "." else ""
  }

  /**
   * `make_path`'s loop over the chained components: each component's text,
   * followed by '.' when the next component is a field.
   */
  method JoinComponents(full: seq<Segment>) returns (res: string)
    ensures res == Render(full)
  {
    res := "";
    var i := 0;
    while i < |full|
      invariant 0 <= i <= |full|
      invariant res == Render(full[..i]) + Separator(full, i)
      decreases |full| - i
    {
      res := PushComponent(full, i, res);
      i := i + 1;
    }
    assert full[..i] == full;
  }

  /** One round of the loop: the component's text, then '.' if a field comes next. */
  method PushComponent(full: seq<Segment>, i: nat, before: string) returns (res: string)
    requires i < |full| && before == Render(full[..i]) + Separator(full, i)
    ensures res == Render(full[..i + 1]) + Separator(full, i + 1)
  {
    match full[i] {
      case Field(k) => res := before + k;
      case Index(n) => res := before + ("[" + NatToString(n) + "]");
    }
    MakePathStep(full, i, before, res);
    ghost var rendered := res;
    if i + 1 < |full| && full[i + 1].Field? {
      res := res + ".";
    }
    SeparatorStep(full, i, rendered, res);
  }

  /** The '.' pushed when the next component is a field is the separator before it. */
  lemma SeparatorStep(full: seq<Segment>, i: nat, rendered: string, after: string)
    requires i < |full|
    requires after == rendered + (if i + 1 < |full| && full[i + 1].Field? then "." else "")
    ensures after == rendered + Separator(full, i + 1)
  {
  }

  /** One round of `make_path`'s loop: the component's text completes the next prefix. */
  lemma MakePathStep(full: seq<Segment>, i: nat, before: string, after: string)
    requires i < |full|
    requires before == Render(full[..i]) + Separator(full, i)
    requires after == before + Piece(full[i], false)
    ensures after == Render(full[..i + 1])
  {
    var pre := full[..i];
    var c := full[i];
    assert full[..i + 1] == pre + [c];
    RenderSnoc(pre, c);
    assert pre != [] <==> 0 < i;
    if 0 < i && c.Field? {
      assert Separator(full, i) == "." && Piece(c, true) == "." + c.name && Piece(c, false) == c.name;
      ConcatAssoc(Render(pre), ".", c.name);
    } else {
      assert Separator(full, i) == [] && Piece(c, pre != []) == Piece(c, false);
      assert before == Render(pre);
    }
  }


  /** `all_fields(fields).collect()`: every leaf, rendered, in pre-order. */
  method AllFields(fields: seq<Entry>) returns (out: seq<(string, Value)>)
    ensures out == Rendered(EntriesLeaves([], fields))
  {
    var it := new FieldsIter(fields);
    out := [];
    while true
      invariant it.Valid()
      invariant out + Rendered(it.Remaining()) == Rendered(EntriesLeaves([], fields))
      decreases it.Measure()
    {
      ghost var before := it.Remaining();
      var r := it.Next();
      if r.None? {
        assert out + [] == out;
        return;
      }
      assert Rendered(before) == [r.value] + Rendered(before[1..]);
      ConcatAssoc(out, [r.value], Rendered(before[1..]));
      out := out + [r.value];
    }
  }

  // ---------------------------------------------------------------------------
  // What the walk yields

  /** Every leaf is a scalar whose path strictly extends `prefix`. */
  predicate ScalarsBelow(prefix: seq<Segment>, ls: seq<Leaf>) {
    forall i :: 0 <= i < |ls| ==> IsScalar(ls[i].1) && prefix < ls[i].0
  }

  lemma ScalarsBelowConcat(prefix: seq<Segment>, a: seq<Leaf>, b: seq<Leaf>)
    requires ScalarsBelow(prefix, a) && ScalarsBelow(prefix, b)
    ensures ScalarsBelow(prefix, a + b)
  {
    forall i | 0 <= i < |a + b|
      ensures IsScalar((a + b)[i].1) && prefix < (a + b)[i].0
    {
      if i >= |a| {
        assert (a + b)[i] == b[i - |a|];
      }
    }
  }

  /** A map or array is never yielded itself: what sits at `prefix + [c]` yields scalars below `prefix`. */
  lemma {:induction false} LeavesOfBelow(prefix: seq<Segment>, c: Segment, v: Value)
    ensures ScalarsBelow(prefix, LeavesOf(prefix + [c], v))
    decreases v, 1
  {
    var q := prefix + [c];
    match v
    case Map(es) =>
      EntriesLeavesBelow(q, es);
      ScalarsWiden(prefix, q, EntriesLeaves(q, es));
    case Array(xs) =>
      ItemsLeavesBelow(q, xs, 0);
      ScalarsWiden(prefix, q, ItemsLeaves(q, xs, 0));
    case _ =>
  }

  lemma ScalarsWiden(prefix: seq<Segment>, q: seq<Segment>, ls: seq<Leaf>)
    requires prefix < q && ScalarsBelow(q, ls)
    ensures ScalarsBelow(prefix, ls)
  {
  }

  lemma {:induction false} EntriesLeavesBelow(prefix: seq<Segment>, es: seq<Entry>)
    ensures ScalarsBelow(prefix, EntriesLeaves(prefix, es))
    decreases es, 0
  {
    if es != [] {
      LeavesOfBelow(prefix, Field(es[0].key), es[0].val);
      EntriesLeavesBelow(prefix, es[1..]);
      ScalarsBelowConcat(prefix, LeavesOf(prefix + [Field(es[0].key)], es[0].val), EntriesLeaves(prefix, es[1..]));
    }
  }

  lemma {:induction false} ItemsLeavesBelow(prefix: seq<Segment>, xs: seq<Value>, start: nat)
    ensures ScalarsBelow(prefix, ItemsLeaves(prefix, xs, start))
    decreases xs, 0
  {
    if xs != [] {
      LeavesOfBelow(prefix, Index(start), xs[0]);
      ItemsLeavesBelow(prefix, xs[1..], start + 1);
      ScalarsBelowConcat(prefix, LeavesOf(prefix + [Index(start)], xs[0]), ItemsLeaves(prefix, xs[1..], start + 1));
    }
  }

  /** `all_fields` yields only scalars, each under a non-empty path. */
  lemma YieldsScalars(fields: seq<Entry>)
    ensures forall i :: 0 <= i < |EntriesLeaves([], fields)| ==>
      IsScalar(Rendered(EntriesLeaves([], fields))[i].1) && EntriesLeaves([], fields)[i].0 != []
  {
    EntriesLeavesBelow([], fields);
  }

  /** The (key, value) pairs of a map in key order. */
  function KeyValues(es: seq<Entry>): (r: seq<(string, Value)>)
    ensures |r| == |es|
  {
    if es == [] then [] else [(es[0].key, es[0].val)] + KeyValues(es[1..])
  }

  /** On a map of scalars the walk yields each key with its value, in key order. */
  lemma {:induction false} FlatMapLeaves(es: seq<Entry>)
    requires forall i :: 0 <= i < |es| ==> IsScalar(es[i].val)
    ensures Rendered(EntriesLeaves([], es)) == KeyValues(es)
  {
    if es != [] {
      FlatMapLeaves(es[1..]);
      var e := es[0];
      assert IsScalar(e.val);
      assert [] + [Field(e.key)] == [Field(e.key)];
      assert LeavesOf([Field(e.key)], e.val) == [([Field(e.key)], e.val)];
      assert Render([Field(e.key)]) == e.key + "";
      var ls := EntriesLeaves([], es);
      assert ls == [([Field(e.key)], e.val)] + EntriesLeaves([], es[1..]);
      assert ls[1..] == EntriesLeaves([], es[1..]);
      assert e.key + "" == e.key;
      assert Rendered(ls) == [(e.key, e.val)] + Rendered(ls[1..]);
    }
  }
}
