/** The paths the lookup tests parse, checked against the model of the grammar. */
module LookupExamples {
  import opened Base
  import opened Lookup

  /** `regular."quoted"."quoted but spaces"."quoted.but.periods".lookup[0].nested_lookup[0][0]` */
  const Complex: string := ComplexFields + ComplexMiddle + ComplexEnd

  const ComplexFields: string := "regular" + ".\"quoted\"" + ".\"quoted but spaces\""

  const ComplexMiddle: string := ".\"quoted.but.periods\"" + ".lookup" + "[0]"

  const ComplexEnd: string := ".nested_lookup" + "[0]" + "[0]"

  const Decomposed: seq<Segment> := [
    Field("regular"),
    Field("\"quoted\""),
    Field("\"quoted but spaces\""),
    Field("\"quoted.but.periods\""),
    Field("lookup"),
    Index(0),
    Field("nested_lookup"),
    Index(0),
    Index(0)
  ]

  lemma RenderPair(a: Segment, b: Segment)
    ensures Render([a, b]) == Piece(a, false) + Piece(b, true)
  {
    assert [a, b][1..] == [b] && [b][1..] == [];
    assert RenderTail([b]) == Piece(b, true) + "" == Piece(b, true);
  }

  lemma RenderTailTriple(a: Segment, b: Segment, c: Segment)
    ensures RenderTail([a, b, c]) == Piece(a, true) + Piece(b, true) + Piece(c, true)
  {
    assert [a, b, c][1..] == [b, c] && [b, c][1..] == [c] && [c][1..] == [];
    assert RenderTail([c]) == Piece(c, true) + "" == Piece(c, true);
    ConcatAssoc(Piece(a, true), Piece(b, true), Piece(c, true));
  }

  lemma RenderTriple(a: Segment, b: Segment, c: Segment)
    ensures Render([a, b, c]) == Piece(a, false) + Piece(b, true) + Piece(c, true)
  {
    assert [a, b, c][1..] == [b, c] && [b, c][1..] == [c] && [c][1..] == [];
    assert RenderTail([c]) == Piece(c, true) + "" == Piece(c, true);
    ConcatAssoc(Piece(a, false), Piece(b, true), Piece(c, true));
  }

  lemma ZeroPiece()
    ensures Piece(Index(0), true) == "[0]"
  {
    assert NatToString(0) == "0";
  }

  lemma ComplexFieldsRender()
    ensures Render(Decomposed[..3]) == ComplexFields
  {
    assert Decomposed[..3] == [Field("regular"), Field("\"quoted\""), Field("\"quoted but spaces\"")];
    RenderTriple(Field("regular"), Field("\"quoted\""), Field("\"quoted but spaces\""));
  }

  lemma ComplexMiddleRenders()
    ensures RenderTail(Decomposed[3..6]) == ComplexMiddle
  {
    assert Decomposed[3..6] == [Field("\"quoted.but.periods\""), Field("lookup"), Index(0)];
    RenderTailTriple(Field("\"quoted.but.periods\""), Field("lookup"), Index(0));
    ZeroPiece();
  }

  lemma ComplexEndRenders()
    ensures RenderTail(Decomposed[6..]) == ComplexEnd
  {
    assert Decomposed[6..] == [Field("nested_lookup"), Index(0), Index(0)];
    RenderTailTriple(Field("nested_lookup"), Index(0), Index(0));
    ZeroPiece();
  }

  /** The nine segments of the complex path render back to its text. */
  lemma ComplexRenders()
    ensures Render(Decomposed) == Complex
  {
    var d := Decomposed;
    assert d == d[..3] + (d[3..6] + d[6..]);
    RenderTailAppend(d[3..6], d[6..]);
    RenderAppend(d[..3], d[3..6] + d[6..]);
    ComplexFieldsRender();
    ComplexMiddleRenders();
    ComplexEndRenders();
  }

  lemma QuotedNames()
    ensures IsQuotedName("\"quoted\"") && IsQuotedName("\"quoted but spaces\"")
    ensures IsQuotedName("\"quoted.but.periods\"") && IsQuotedName("\"flop fleep\"")
  {
  }

  lemma DecomposedValid()
    ensures ValidPath(Decomposed)
  {
    var d := Decomposed;
    QuotedNames();
    assert IsBareName(d[0].name) && IsBareName(d[4].name) && IsBareName(d[6].name);
  }

  /** Parsing the complex path yields exactly its nine segments, in order. */
  lemma ComplexParses()
    ensures FromStr(Complex) == Ok(Decomposed)
  {
    DecomposedValid();
    ComplexRenders();
    ParseRender(Decomposed);
  }

  lemma ArrayPath()
    ensures FromStr("foo[0]") == Ok([Field("foo"), Index(0)])
  {
    var p := [Field("foo"), Index(0)];
    assert Render(p) == "foo[0]" by {
      RenderPair(Field("foo"), Index(0));
      ZeroPiece();
    }
    ParseRender(p);
  }

  lemma DottedFields()
    ensures FromStr("florp.flop") == Ok([Field("florp"), Field("flop")])
  {
    var p := [Field("florp"), Field("flop")];
    assert Render(p) == "florp.flop" by {
      RenderPair(Field("florp"), Field("flop"));
    }
    ParseRender(p);
  }

  lemma QuotedField()
    ensures FromStr("florp.\"flop fleep\"") == Ok([Field("florp"), Field("\"flop fleep\"")])
  {
    var p := [Field("florp"), Field("\"flop fleep\"")];
    assert ValidPath(p) by {
      QuotedNames();
    }
    assert Render(p) == "florp.\"flop fleep\"" by {
      RenderPair(Field("florp"), Field("\"flop fleep\""));
    }
    ParseRender(p);
  }

  /** from_str splits on '.', from keeps the whole string as a single field. */
  lemma ParsedVersusRaw()
    ensures FromStr("a.b") == Ok([Field("a"), Field("b")])
    ensures FromRaw("a.b") == [Field("a.b")]
  {
    var p := [Field("a"), Field("b")];
    assert Render(p) == "a.b" by {
      RenderPair(Field("a"), Field("b"));
    }
    ParseRender(p);
  }

  /** A path must not be empty. */
  lemma EmptyRejected()
    ensures FromStr("") == Err(EmptyPath)
  {
  }

  /** push then indexing, and pop of a one-segment path. */
  method PushAndPop() returns (pushed: seq<Segment>, popped: Option<Segment>)
    ensures pushed == [Field("some_key"), Field("some_key")]
    ensures popped == Some(Field("some_key"))
  {
    var p := [Field("some_key")];
    assert Render(p) == "some_key";
    ParseRender(p);
    var parsed := FromStr("some_key").value;
    var a := new LookupBuf(parsed);
    a.Push(Field("some_key"));
    pushed := a.segments;
    var b := new LookupBuf(parsed);
    popped := b.Pop();
  }
}
