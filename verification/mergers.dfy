/**
 * Field mergers of the reduce transform: how the values one field takes in
 * successive events of a bucket are combined.  A merger is created from the
 * first value (by the configured strategy, or by the value's own kind when no
 * strategy is configured), then fed each later value; `Add` may refuse a
 * value, in which case the merger is left as it was.  `Finalize` gives the
 * field's value in the flushed event.
 */
module Mergers {
  import opened Base
  import opened Values

  /** The merge strategies a field can be configured with. */
  datatype Strategy = Discard | Sum | Max | Array | Concat

  datatype MergeError = ExpectedInteger | ExpectedBytes | ExpectedBytesOrArray

  datatype Merger =
    | KeepFirst(first: Value)       // discard: the first value wins
    | SumInts(total: int)           // sum (and the default for integers)
    | MaxInt(max: int)              // max over integers
    | Collect(items: seq<Value>)    // array: every value, in arrival order
    | ConcatBytes(text: string)     // concat of strings, joined by ' '
    | ConcatArray(elems: seq<Value>) // concat of arrays: elements appended

  /** The merger a field gets when no strategy is configured for it (`Value::into`). */
  function DefaultMerger(v: Value): (m: Merger)
    ensures Finalize(m) == v
  {
    match v
    case Integer(n) => SumInts(n)
    case _ => KeepFirst(v)
  }

  /** `get_value_merger`: the merger a strategy builds from a field's first value. */
  function GetValueMerger(v: Value, strategy: Strategy): (r: Result<Merger, MergeError>)
    ensures r.Err? <==>
      || (strategy in {Sum, Max} && !v.Integer?)
      || (strategy == Concat && !v.Bytes? && !v.Array?)
    ensures r.Ok? && strategy != Strategy.Array ==> Finalize(r.value) == v
    ensures r.Ok? && strategy == Strategy.Array ==> Finalize(r.value) == Value.Array([v])
  {
    match strategy
    case Discard => Ok(KeepFirst(v))
    case Sum => if v.Integer? then Ok(SumInts(v.n)) else Err(ExpectedInteger)
    case Max => if v.Integer? then Ok(MaxInt(v.n)) else Err(ExpectedInteger)
    case Array => Ok(Collect([v]))
    case Concat =>
      if v.Bytes? then Ok(ConcatBytes(v.bytes))
      else if v.Array? then Ok(ConcatArray(v.items))
      else Err(ExpectedBytesOrArray)
  }

  /** `ReduceValueMerger::add`: feed one more value; Err leaves the merger unchanged. */
  function Add(m: Merger, v: Value): (r: Result<Merger, MergeError>)
    ensures r.Ok? ==> SameKind(r.value, m)
  {
    match m
    case KeepFirst(_) => Ok(m)
    case SumInts(t) => if v.Integer? then Ok(SumInts(t + v.n)) else Err(ExpectedInteger)
    case MaxInt(t) =>
      if v.Integer? then Ok(MaxInt(if v.n > t then v.n else t)) else Err(ExpectedInteger)
    case Collect(xs) => Ok(Collect(xs + [v]))
    case ConcatBytes(s) => if v.Bytes? then Ok(ConcatBytes(s + " " + v.bytes)) else Err(ExpectedBytes)
    case ConcatArray(xs) => if v.Array? then Ok(ConcatArray(xs + v.items)) else Ok(ConcatArray(xs + [v]))
  }

  predicate SameKind(a: Merger, b: Merger) {
    (a.KeepFirst? && b.KeepFirst?) || (a.SumInts? && b.SumInts?) || (a.MaxInt? && b.MaxInt?)
    || (a.Collect? && b.Collect?) || (a.ConcatBytes? && b.ConcatBytes?) || (a.ConcatArray? && b.ConcatArray?)
  }

  /** `insert_into`'s value: what the merger has accumulated. */
  function Finalize(m: Merger): Value {
    match m
    case KeepFirst(v) => v
    case SumInts(t) => Integer(t)
    case MaxInt(t) => Integer(t)
    case Collect(xs) => Value.Array(xs)
    case ConcatBytes(s) => Bytes(s)
    case ConcatArray(xs) => Value.Array(xs)
  }

  /** One value fed to a merger; a refused value leaves it as it was. */
  function AddOrKeep(m: Merger, v: Value): Merger {
    match Add(m, v)
    case Ok(m2) => m2
    case Err(_) => m
  }

  /** A merger fed values one by one, a refused value leaving it as it was. */
  function Feed(m: Merger, vs: seq<Value>): Merger
    decreases |vs|
  {
    if vs == [] then m else Feed(AddOrKeep(m, vs[0]), vs[1..])
  }

  /** Feeding one more value at the end is one more step. */
  lemma {:induction false} FeedSnoc(m: Merger, vs: seq<Value>, v: Value)
    ensures Feed(m, vs + [v]) == AddOrKeep(Feed(m, vs), v)
    decreases |vs|
  {
    if vs == [] {
      assert [v][1..] == [];
    } else {
      FeedSnoc(AddOrKeep(m, vs[0]), vs[1..], v);
      assert (vs + [v])[1..] == vs[1..] + [v];
    }
  }

  // ---------------------------------------------------------------------------
  // Reference definitions of what each merger accumulates

  /** The sum of the integers among vs; other values contribute nothing. */
  function IntSum(vs: seq<Value>): int {
    if vs == [] then 0 else (if vs[0].Integer? then vs[0].n else 0) + IntSum(vs[1..])
  }

  /** The texts among vs, each preceded by a space. */
  function SpacedTexts(vs: seq<Value>): string {
    if vs == [] then "" else (if vs[0].Bytes? then " " + vs[0].bytes else "") + SpacedTexts(vs[1..])
  }

  /** Arrays contribute their elements, any other value itself. */
  function Flatten(vs: seq<Value>): seq<Value> {
    if vs == [] then [] else (if vs[0].Array? then vs[0].items else [vs[0]]) + Flatten(vs[1..])
  }

  // ---------------------------------------------------------------------------
  // What feeding a merger amounts to

  /** The first value is kept whatever follows. */
  lemma {:induction false} FeedKeepFirst(v: Value, vs: seq<Value>)
    ensures Finalize(Feed(KeepFirst(v), vs)) == v
    decreases |vs|
  {
    if vs != [] {
      FeedKeepFirst(v, vs[1..]);
    }
  }

  /** A sum is the first integer plus every later integer; other values are refused. */
  lemma {:induction false} FeedSum(t: int, vs: seq<Value>)
    ensures Feed(SumInts(t), vs) == SumInts(t + IntSum(vs))
    decreases |vs|
  {
    if vs != [] {
      var t2 := if vs[0].Integer? then t + vs[0].n else t;
      FeedSum(t2, vs[1..]);
    }
  }

  /** A maximum bounds the first integer and every later one, and is one of them. */
  lemma {:induction false} FeedMax(t: int, vs: seq<Value>)
    ensures Feed(MaxInt(t), vs).MaxInt?
    ensures Feed(MaxInt(t), vs).max >= t
    ensures forall i :: 0 <= i < |vs| && vs[i].Integer? ==> Feed(MaxInt(t), vs).max >= vs[i].n
    ensures Feed(MaxInt(t), vs).max == t
         || exists i :: 0 <= i < |vs| && vs[i].Integer? && Feed(MaxInt(t), vs).max == vs[i].n
    decreases |vs|
  {
    if vs != [] {
      var t2 := if vs[0].Integer? && vs[0].n > t then vs[0].n else t;
      FeedMax(t2, vs[1..]);
      var r := Feed(MaxInt(t), vs);
      assert r == Feed(MaxInt(t2), vs[1..]);
      forall i | 0 <= i < |vs| && vs[i].Integer?
        ensures r.max >= vs[i].n
      {
        if i > 0 {
          assert vs[1..][i - 1] == vs[i];
        }
      }
      if r.max != t && r.max != t2 {
        var j :| 0 <= j < |vs[1..]| && vs[1..][j].Integer? && r.max == vs[1..][j].n;
        assert vs[j + 1] == vs[1..][j];
      }
    }
  }

  /** An array strategy keeps every value, in arrival order. */
  lemma {:induction false} FeedCollect(xs: seq<Value>, vs: seq<Value>)
    ensures Feed(Collect(xs), vs) == Collect(xs + vs)
    decreases |vs|
  {
    if vs != [] {
      FeedCollect(xs + [vs[0]], vs[1..]);
      assert xs + [vs[0]] + vs[1..] == xs + vs;
    }
  }

  /** Concatenated strings are joined by single spaces; non-strings are refused. */
  lemma {:induction false} FeedConcatBytes(s: string, vs: seq<Value>)
    ensures Feed(ConcatBytes(s), vs) == ConcatBytes(s + SpacedTexts(vs))
    decreases |vs|
  {
    if vs != [] {
      if vs[0].Bytes? {
        FeedConcatBytes(s + " " + vs[0].bytes, vs[1..]);
        assert s + " " + vs[0].bytes + SpacedTexts(vs[1..]) == s + SpacedTexts(vs);
      } else {
        FeedConcatBytes(s, vs[1..]);
      }
    }
  }

  /** Concatenated arrays are flattened one level; other values are appended as they are. */
  lemma {:induction false} FeedConcatArray(xs: seq<Value>, vs: seq<Value>)
    ensures Feed(ConcatArray(xs), vs) == ConcatArray(xs + Flatten(vs))
    decreases |vs|
  {
    if vs != [] {
      var head := if vs[0].Array? then vs[0].items else [vs[0]];
      FeedConcatArray(xs + head, vs[1..]);
      assert xs + head + Flatten(vs[1..]) == xs + Flatten(vs);
    }
  }
}
