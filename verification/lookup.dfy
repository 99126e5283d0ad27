/**
 * Field paths ("lookups"): a non-empty sequence of segments, each a field
 * name or an array index, written in configuration as `a.b[0]."c.d"`.
 *
 * The grammar is the one the lookup tests pin down:
 *   path    := segment ('.' segment)*
 *   segment := field index*
 *   field   := bare | quoted
 *   bare    := one or more characters other than '.', '[' and '"'
 *   quoted  := '"' (any character but '"')* '"'    -- the quotes are kept in the name
 *   index   := '[' digit+ ']'
 * A field followed by k bracketed indices becomes 1 + k flat segments.
 */
module Lookup {
  import opened Base

  datatype Segment = Field(name: string) | Index(index: nat)

  datatype ParseError = EmptyPath | InvalidPath

  // ---------------------------------------------------------------------------
  // Decimal numerals (the `[i]` of an index segment)

  predicate IsDigit(c: char) {
    '0' <= c <= '9'
  }

  predicate AllDigits(d: string) {
    forall i :: 0 <= i < |d| ==> IsDigit(d[i])
  }

  /** A numeral as `format!("{}", n)` writes it: no leading zero unless it is "0". */
  predicate Canonical(d: string) {
    |d| > 0 && AllDigits(d) && (d[0] == '0' ==> |d| == 1)
  }

  function DigitChar(d: nat): (c: char)
    requires d < 10
    ensures IsDigit(c) && c as int - '0' as int == d
  {
    ('0' as int + d) as char
  }

  function NatToString(n: nat): (r: string)
    ensures Canonical(r)
    decreases n
  {
    if n < 10 then [DigitChar(n)] else NatToString(n / 10) + [DigitChar(n % 10)]
  }

  function DigitsToNat(d: string): nat
    requires AllDigits(d)
    decreases |d|
  {
    if d == [] then 0 else DigitsToNat(d[..|d| - 1]) * 10 + (d[|d| - 1] as int - '0' as int)
  }

  lemma {:induction false} NatToStringInverse(n: nat)
    ensures DigitsToNat(NatToString(n)) == n
    decreases n
  {
    if n >= 10 {
      var s := NatToString(n);
      NatToStringInverse(n / 10);
      assert s[..|s| - 1] == NatToString(n / 10);
    }
  }

  lemma {:induction false} LeadingDigitPositive(d: string)
    requires AllDigits(d) && |d| > 0 && d[0] != '0'
    ensures DigitsToNat(d) >= 1
    decreases |d|
  {
    if |d| > 1 {
      LeadingDigitPositive(d[..|d| - 1]);
    }
  }

  lemma {:induction false} DigitsToNatInverse(d: string)
    requires Canonical(d)
    ensures NatToString(DigitsToNat(d)) == d
    decreases |d|
  {
    if |d| > 1 {
      var front := d[..|d| - 1];
      assert Canonical(front);
      LeadingDigitPositive(front);
      DigitsToNatInverse(front);
      var n := DigitsToNat(d);
      assert n / 10 == DigitsToNat(front) && n % 10 == d[|d| - 1] as int - '0' as int;
      assert d == front + [d[|d| - 1]];
    }
  }

  lemma ConcatAssoc<T>(a: seq<T>, b: seq<T>, c: seq<T>)
    ensures a + (b + c) == (a + b) + c
  {
  }

  // ---------------------------------------------------------------------------
  // Rendering (to_string)

  /** The text of one segment; a field after another segment is preceded by '.'. */
  function Piece(seg: Segment, afterAnother: bool): string {
    match seg
    case Field(n) => if afterAnother then "." + n else n
    case Index(i) => "[" + NatToString(i) + "]"
  }

  /** The segments of a path that follow its first one. */
  function RenderTail(p: seq<Segment>): string {
    if p == [] then "" else Piece(p[0], true) + RenderTail(p[1..])
  }

  /** The canonical string of a path: fields joined by '.', each index as `[i]`. */
  function Render(p: seq<Segment>): string {
    if p == [] then "" else Piece(p[0], false) + RenderTail(p[1..])
  }

  lemma {:induction false} RenderTailAppend(a: seq<Segment>, b: seq<Segment>)
    ensures RenderTail(a + b) == RenderTail(a) + RenderTail(b)
    decreases |a|
  {
    if a != [] {
      RenderTailAppend(a[1..], b);
      assert (a + b)[0] == a[0];
      assert (a + b)[1..] == a[1..] + b;
      var x, y, z := Piece(a[0], true), RenderTail(a[1..]), RenderTail(b);
      assert x + (y + z) == (x + y) + z;
    } else {
      assert a + b == b;
    }
  }

  /** Rendering a path extended by one segment appends that segment's piece. */
  lemma RenderSnoc(p: seq<Segment>, c: Segment)
    ensures Render(p + [c]) == Render(p) + Piece(c, p != [])
  {
    if p != [] {
      RenderTailAppend(p[1..], [c]);
      assert (p + [c])[1..] == p[1..] + [c];
    }
  }

  // ---------------------------------------------------------------------------
  // Well-formed paths: what the parser produces

  predicate IsBareChar(c: char) {
    c != '.' && c != '[' && c != '"'
  }

  predicate IsBareName(n: string) {
    |n| > 0 && forall i :: 0 <= i < |n| ==> IsBareChar(n[i])
  }

  predicate IsQuotedName(n: string) {
    |n| >= 2 && n[0] == '"' && n[|n| - 1] == '"' && forall i :: 0 < i < |n| - 1 ==> n[i] != '"'
  }

  predicate ValidName(n: string) {
    IsBareName(n) || IsQuotedName(n)
  }

  /** Non-empty, starts with a field, and every field name is bare or quoted. */
  predicate ValidPath(p: seq<Segment>) {
    && |p| > 0
    && p[0].Field?
    && forall i :: 0 <= i < |p| && p[i].Field? ==> ValidName(p[i].name)
  }

  predicate AllIndices(p: seq<Segment>) {
    forall i :: 0 <= i < |p| ==> p[i].Index?
  }

  /** At position i an index opens with a zero that is not the whole number: `[0d`. */
  predicate LeadingZeroAt(s: string, i: nat) {
    i + 2 < |s| && s[i] == '[' && s[i + 1] == '0' && s[i + 2] != ']'
  }

  /** No index is written with a leading zero (`[01]`); `[0]` itself is fine. */
  predicate NoLeadingZeros(s: string) {
    forall i: nat | i < |s| :: !LeadingZeroAt(s, i)
  }

  lemma NoLeadingZerosSuffix(s: string, k: nat)
    requires k <= |s| && NoLeadingZeros(s)
    ensures NoLeadingZeros(s[k..])
  {
    forall i: nat | i < |s[k..]| ensures !LeadingZeroAt(s[k..], i) {
      assert !LeadingZeroAt(s, k + i);
    }
  }

  // ---------------------------------------------------------------------------
  // Parsing (from_str)

  function BareLen(s: string): (n: nat)
    ensures n <= |s|
    ensures forall i :: 0 <= i < n ==> IsBareChar(s[i])
    ensures n < |s| ==> !IsBareChar(s[n])
  {
    if s == [] || !IsBareChar(s[0]) then 0 else 1 + BareLen(s[1..])
  }

  function QuotedLen(s: string): (n: nat)
    ensures n <= |s|
    ensures forall i :: 0 <= i < n ==> s[i] != '"'
    ensures n < |s| ==> s[n] == '"'
  {
    if s == [] || s[0] == '"' then 0 else 1 + QuotedLen(s[1..])
  }

  function DigitLen(s: string): (n: nat)
    ensures n <= |s|
    ensures forall i :: 0 <= i < n ==> IsDigit(s[i])
    ensures n < |s| ==> !IsDigit(s[n])
  {
    if s == [] || !IsDigit(s[0]) then 0 else 1 + DigitLen(s[1..])
  }

  /** Reads one field name at the start of `s`; returns it and what follows. */
  function ParseField(s: string): (r: Option<(string, string)>)
    ensures r.Some? ==> s == r.value.0 + r.value.1 && ValidName(r.value.0)
  {
    if s != [] && s[0] == '"' then
      var n := QuotedLen(s[1..]);
      if n == |s| - 1 then None
      else
        assert s == s[..n + 2] + s[n + 2..];
        Some((s[..n + 2], s[n + 2..]))
    else
      var n := BareLen(s);
      if n == 0 then None
      else
        assert s == s[..n] + s[n..];
        Some((s[..n], s[n..]))
  }

  /** Reads the bracketed indices at the start of `s`. */
  function ParseIndices(s: string): (r: Option<(seq<Segment>, string)>)
    ensures r.Some? ==> AllIndices(r.value.0) && |r.value.1| <= |s|
    ensures r.Some? ==> r.value.1 == [] || r.value.1[0] != '['
    decreases |s|
  {
    if s == [] || s[0] != '[' then Some(([], s))
    else
      var d := DigitLen(s[1..]);
      if d == 0 || d + 1 == |s| || s[d + 1] != ']' then None
      else
        match ParseIndices(s[d + 2..])
        case None => None
        case Some((idx, rest)) => Some(([Index(DigitsToNat(s[1..d + 1]))] + idx, rest))
  }

  /** A dotted group: one field name followed by zero or more indices. */
  predicate ValidGroup(g: seq<Segment>) {
    |g| > 0 && g[0].Field? && ValidName(g[0].name) && AllIndices(g[1..])
  }

  /** Reads one group at the start of `s`: a field name and the indices after it. */
  function ParseGroup(s: string): (r: Option<(seq<Segment>, string)>)
    ensures r.Some? ==> ValidGroup(r.value.0) && |r.value.1| < |s|
    ensures r.Some? ==> r.value.1 == [] || r.value.1[0] != '['
  {
    match ParseField(s)
    case None => None
    case Some((name, after)) =>
      match ParseIndices(after)
      case None => None
      case Some((idx, rest)) =>
        assert ([Field(name)] + idx)[1..] == idx;
        Some(([Field(name)] + idx, rest))
  }

  /** Reads a whole path: groups separated by '.', to the end of `s`. */
  function ParseSegments(s: string): (r: Option<seq<Segment>>)
    ensures r.Some? ==> ValidPath(r.value)
    decreases |s|
  {
    match ParseGroup(s)
    case None => None
    case Some((group, rest)) =>
      if rest == [] then Some(group)
      else if rest[0] != '.' then None
      else
        match ParseSegments(rest[1..])
        case None => None
        case Some(tail) =>
          ValidPathAppend(group, tail);
          Some(group + tail)
  }

  lemma ValidPathAppend(g: seq<Segment>, t: seq<Segment>)
    requires ValidGroup(g) && ValidPath(t)
    ensures ValidPath(g + t)
  {
    var p := g + t;
    forall i | 0 < i < |g| ensures p[i].Index? {
      assert p[i] == g[1..][i - 1];
    }
    forall i | |g| <= i < |p| ensures p[i] == t[i - |g|] {
    }
  }

  lemma Bracketed(s: string, d: nat)
    requires d + 2 <= |s| && s[0] == '[' && s[d + 1] == ']'
    ensures s == "[" + s[1..d + 1] + "]" + s[d + 2..]
  {
    var t := "[" + s[1..d + 1] + "]" + s[d + 2..];
    assert |t| == |s|;
    forall k | 0 <= k < |s| ensures s[k] == t[k] {
      if k == 0 {
      } else if k < d + 1 {
        assert t[k] == s[1..d + 1][k - 1];
      } else if k == d + 1 {
      } else {
        assert t[k] == s[d + 2..][k - d - 2];
      }
    }
  }

  /** What the index parser consumed is exactly the rendering of the indices it read. */
  lemma {:induction false} ParseIndicesText(s: string)
    requires ParseIndices(s).Some? && NoLeadingZeros(s)
    ensures s == RenderTail(ParseIndices(s).value.0) + ParseIndices(s).value.1
    decreases |s|
  {
    if s != [] && s[0] == '[' {
      var d := DigitLen(s[1..]);
      var digits := s[1..d + 1];
      var after := s[d + 2..];
      assert AllDigits(digits);
      var n := DigitsToNat(digits);
      var (idx, rest) := ParseIndices(after).value;
      assert ParseIndices(s) == Some(([Index(n)] + idx, rest));
      assert NoLeadingZeros(after) by {
        NoLeadingZerosSuffix(s, d + 2);
      }
      ParseIndicesText(after);
      assert NatToString(n) == digits by {
        assert Canonical(digits) by {
          if digits[0] == '0' && |digits| > 1 {
            assert LeadingZeroAt(s, 0);
          }
        }
        DigitsToNatInverse(digits);
      }
      var open := "[" + digits + "]";
      assert RenderTail([Index(n)] + idx) == open + RenderTail(idx) by {
        assert ([Index(n)] + idx)[1..] == idx;
      }
      Bracketed(s, d);
      ConcatAssoc(open, RenderTail(idx), rest);
    }
  }

  /** What the group parser consumed is exactly the rendering of the group it read. */
  lemma ParseGroupText(s: string)
    requires ParseGroup(s).Some? && NoLeadingZeros(s)
    ensures s == Render(ParseGroup(s).value.0) + ParseGroup(s).value.1
  {
    var (name, after) := ParseField(s).value;
    var (idx, rest) := ParseIndices(after).value;
    assert NoLeadingZeros(after) by {
      NoLeadingZerosSuffix(s, |name|);
      assert s[|name|..] == after;
    }
    ParseIndicesText(after);
    var g := [Field(name)] + idx;
    assert Render(g) == name + RenderTail(idx) by {
      assert g[0] == Field(name) && g[1..] == idx;
    }
    ConcatAssoc(name, RenderTail(idx), rest);
  }

  /** Rendering a concatenation: the second part is rendered as a continuation. */
  lemma RenderAppend(a: seq<Segment>, b: seq<Segment>)
    requires a != []
    ensures Render(a + b) == Render(a) + RenderTail(b)
  {
    RenderTailAppend(a[1..], b);
    assert (a + b)[0] == a[0] && (a + b)[1..] == a[1..] + b;
    ConcatAssoc(Piece(a[0], false), RenderTail(a[1..]), RenderTail(b));
  }

  /** A path that starts with a field continues another one after a '.'. */
  lemma RenderTailOfPath(t: seq<Segment>)
    requires t != [] && t[0].Field?
    ensures RenderTail(t) == "." + Render(t)
  {
    ConcatAssoc(".", t[0].name, RenderTail(t[1..]));
  }

  /** A text that ends a well-formed string has no leading-zero index either. */
  lemma NoLeadingZerosAfter(s: string, a: string, rest: string)
    requires s == a + rest && rest != [] && NoLeadingZeros(s)
    ensures NoLeadingZeros(rest[1..])
  {
    NoLeadingZerosSuffix(s, |a| + 1);
    assert s[|a| + 1..] == rest[1..];
  }

  /** A group's text, a '.', and a path's text together render the joined path. */
  lemma JoinText(s: string, group: seq<Segment>, rest: string, tail: seq<Segment>)
    requires ValidGroup(group) && ValidPath(tail)
    requires s == Render(group) + rest && rest != [] && rest[0] == '.'
    requires Render(tail) == rest[1..]
    ensures Render(group + tail) == s
  {
    RenderAppend(group, tail);
    RenderTailOfPath(tail);
    assert rest == "." + rest[1..];
  }

  /** What the path parser accepted is exactly the rendering of the path it built. */
  lemma {:induction false} ParseSegmentsText(s: string)
    requires ParseSegments(s).Some? && NoLeadingZeros(s)
    ensures Render(ParseSegments(s).value) == s
    decreases |s|
  {
    var (group, rest) := ParseGroup(s).value;
    ParseGroupText(s);
    if rest != [] {
      var tail := ParseSegments(rest[1..]).value;
      NoLeadingZerosAfter(s, Render(group), rest);
      ParseSegmentsText(rest[1..]);
      JoinText(s, group, rest, tail);
    }
  }

  /** `Lookup::from_str`: parse a path; the empty string is `EmptyPath`. */
  function FromStr(s: string): (r: Result<seq<Segment>, ParseError>)
    ensures s == [] <==> r == Err(EmptyPath)
    ensures r.Ok? ==> ValidPath(r.value)
    ensures r.Ok? && NoLeadingZeros(s) ==> Render(r.value) == s
  {
    if s == [] then Err(EmptyPath)
    else
      match ParseSegments(s)
      case None => Err(InvalidPath)
      case Some(p) =>
        assert NoLeadingZeros(s) ==> Render(p) == s by {
          if NoLeadingZeros(s) { ParseSegmentsText(s); }
        }
        Ok(p)
  }

  /** `Lookup::from` / `LookupBuf::from`: the whole string as one field, unparsed. */
  function FromRaw(s: string): (r: seq<Segment>)
    ensures |r| == 1 && r[0] == Field(s)
    ensures Render(r) == s
  {
    [Field(s)]
  }

  // ---------------------------------------------------------------------------
  // Render then parse gives the path back

  lemma {:induction false} BareLenOf(n: string, x: string)
    requires forall i :: 0 <= i < |n| ==> IsBareChar(n[i])
    requires x == [] || !IsBareChar(x[0])
    ensures BareLen(n + x) == |n|
    decreases |n|
  {
    if n != [] {
      BareLenOf(n[1..], x);
      assert (n + x)[1..] == n[1..] + x;
    }
  }

  lemma {:induction false} QuotedLenOf(inner: string, x: string)
    requires forall i :: 0 <= i < |inner| ==> inner[i] != '"'
    ensures QuotedLen(inner + ['"'] + x) == |inner|
    decreases |inner|
  {
    if inner != [] {
      QuotedLenOf(inner[1..], x);
      assert (inner + ['"'] + x)[1..] == inner[1..] + ['"'] + x;
    }
  }

  lemma {:induction false} DigitLenOf(d: string, x: string)
    requires AllDigits(d)
    requires x == [] || !IsDigit(x[0])
    ensures DigitLen(d + x) == |d|
    decreases |d|
  {
    if d != [] {
      DigitLenOf(d[1..], x);
      assert (d + x)[1..] == d[1..] + x;
    }
  }

  lemma ParseFieldOf(n: string, x: string)
    requires ValidName(n)
    requires x == [] || x[0] == '.' || x[0] == '['
    ensures ParseField(n + x) == Some((n, x))
  {
    var s := n + x;
    if IsQuotedName(n) && n[0] == '"' {
      var inner := n[1..|n| - 1];
      assert s[1..] == inner + ['"'] + x;
      QuotedLenOf(inner, x);
      assert s[..|n|] == n && s[|n|..] == x;
    } else {
      assert IsBareName(n);
      BareLenOf(n, x);
      assert s[..|n|] == n && s[|n|..] == x;
    }
  }

  /** One step of the index parser over a rendered `[i]`. */
  lemma ParseIndexStep(i: nat, tail: string)
    ensures ParseIndices("[" + NatToString(i) + "]" + tail)
         == match ParseIndices(tail)
            case None => None
            case Some((idx, rest)) => Some(([Index(i)] + idx, rest))
  {
    var digits := NatToString(i);
    var s := "[" + digits + "]" + tail;
    assert s[0] == '[';
    assert s[1..] == digits + ("]" + tail);
    DigitLenOf(digits, "]" + tail);
    assert s[1..|digits| + 1] == digits;
    assert s[|digits| + 2..] == tail;
    NatToStringInverse(i);
  }

  lemma {:induction false} ParseIndicesOf(idx: seq<Segment>, x: string)
    requires AllIndices(idx)
    requires x == [] || x[0] == '.'
    ensures ParseIndices(RenderTail(idx) + x) == Some((idx, x))
    decreases |idx|
  {
    if idx == [] {
      assert RenderTail(idx) + x == x;
    } else {
      var i := idx[0].index;
      var tail := RenderTail(idx[1..]) + x;
      var t := "[" + NatToString(i) + "]" + tail;
      assert RenderTail(idx) + x == t by {
        assert RenderTail(idx) == ("[" + NatToString(i) + "]") + RenderTail(idx[1..]);
      }
      ParseIndicesOf(idx[1..], x);
      assert ParseIndices(t) == Some((idx, x)) by {
        ParseIndexStep(i, tail);
        assert [Index(i)] + idx[1..] == idx;
      }
    }
  }

  /** Number of index segments that directly follow position 0. */
  function IndexRun(p: seq<Segment>): (k: nat)
    ensures k <= |p| && AllIndices(p[..k]) && (k < |p| ==> p[k].Field?)
  {
    if p == [] || p[0].Field? then 0
    else
      var k := IndexRun(p[1..]);
      assert p[..k + 1] == [p[0]] + p[1..][..k];
      k + 1
  }

  /** Parsing a rendered group followed by '.' or nothing reads that group back. */
  lemma ParseGroupOf(g: seq<Segment>, x: string)
    requires ValidGroup(g)
    requires x == [] || x[0] == '.'
    ensures ParseGroup(Render(g) + x) == Some((g, x))
  {
    var name, idx := g[0].name, g[1..];
    assert Render(g) + x == name + (RenderTail(idx) + x) by {
      ConcatAssoc(name, RenderTail(idx), x);
    }
    ParseIndicesOf(idx, x);
    var after := RenderTail(idx) + x;
    assert after == [] || after[0] == '.' || after[0] == '[' by {
      if idx != [] {
        assert RenderTail(idx)[0] == '[';
      }
    }
    ParseFieldOf(name, after);
    assert [Field(name)] + idx == g;
  }

  /** A well-formed path splits into its first group and a rest that is a path or empty. */
  lemma SplitGroup(p: seq<Segment>) returns (g: seq<Segment>, rest: seq<Segment>)
    requires ValidPath(p)
    ensures p == g + rest && ValidGroup(g)
    ensures rest == [] || ValidPath(rest)
    ensures |rest| < |p|
  {
    var k := IndexRun(p[1..]);
    g, rest := p[..k + 1], p[k + 1..];
    assert g[1..] == p[1..][..k];
    assert p == g + rest;
    if rest != [] {
      assert rest[0] == p[1..][k];
      forall i | 0 <= i < |rest| && rest[i].Field? ensures ValidName(rest[i].name) {
        assert rest[i] == p[k + 1 + i];
      }
    }
  }

  lemma {:induction false} ParseSegmentsOf(p: seq<Segment>)
    requires ValidPath(p)
    ensures ParseSegments(Render(p)) == Some(p)
    decreases |p|
  {
    var g, rest := SplitGroup(p);
    RenderAppend(g, rest);
    if rest == [] {
      assert p == g && Render(p) == Render(g) + "";
      ParseGroupOf(g, "");
    } else {
      RenderTailOfPath(rest);
      ParseGroupOf(g, RenderTail(rest));
      assert RenderTail(rest)[1..] == Render(rest);
      ParseSegmentsOf(rest);
    }
  }

  /** Round trip: every well-formed path survives to_string followed by from_str. */
  lemma ParseRender(p: seq<Segment>)
    requires ValidPath(p)
    ensures FromStr(Render(p)) == Ok(p)
  {
    ParseSegmentsOf(p);
    assert Render(p) != [] by {
      assert |Render(p)| >= |p[0].name| > 0;
    }
  }

  // ---------------------------------------------------------------------------
  // LookupBuf: an owned path whose segments are changed in place

  class LookupBuf {
    var segments: seq<Segment>

    constructor (p: seq<Segment>)
      ensures segments == p
    {
      segments := p;
    }

    /** `to_string`: parsing it gives the buffer's path back. */
    function ToString(): (r: string)
      reads this
      ensures ValidPath(segments) ==> FromStr(r) == Ok(segments)
    {
      var r := Render(segments);
      assert ValidPath(segments) ==> FromStr(r) == Ok(segments) by {
        if ValidPath(segments) { ParseRender(segments); }
      }
      r
    }

    /** `push`: the new segment becomes the last one. */
    method Push(seg: Segment)
      modifies this
      ensures segments == old(segments) + [seg]
    {
      segments := segments + [seg];
    }

    /** `pop`: removes and returns the last segment, `None` when there is none. */
    method Pop() returns (out: Option<Segment>)
      modifies this
      ensures old(segments) == [] ==> out == None && segments == []
      ensures old(segments) != [] ==>
        && out == Some(old(segments)[|old(segments)| - 1])
        && segments == old(segments)[..|old(segments)| - 1]
    {
      if segments == [] {
        out := None;
      } else {
        out := Some(segments[|segments| - 1]);
        segments := segments[..|segments| - 1];
      }
    }

    /** `extend`: appends every segment of `other`, in order. */
    method Extend(other: seq<Segment>)
      modifies this
      ensures segments == old(segments) + other
    {
      var i := 0;
      while i < |other|
        invariant 0 <= i <= |other|
        invariant segments == old(segments) + other[..i]
      {
        segments := segments + [other[i]];
        i := i + 1;
        assert other[..i] == other[..i - 1] + [other[i - 1]];
      }
      assert other[..i] == other;
    }

    /** `lookup[i] = seg` through `IndexMut`: only position i changes. */
    method Set(i: nat, seg: Segment)
      requires i < |segments|
      modifies this
      ensures segments == old(segments)[i := seg]
    {
      segments := segments[i := seg];
    }
  }
}
