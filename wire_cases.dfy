/**
 * The unit tests of src/lexer.rs and src/parser.rs, stated as lemmas about
 * the model: each input is the framing of the expected token, so the round
 * trip lemmas give the expected result.
 */
module WireCases {
  import opened Wrappers
  import opened Decimal
  import Lexing
  import Framing
  import opened Parsing
  import opened ParsingFacts

  lemma FramingOfOne(a: Lexing.Token)
    ensures Framing.EncodeTokens([a]) == Framing.EncodeToken(a)
  {
    assert [a][1..] == [];
    assert Framing.EncodeToken(a) + "" == Framing.EncodeToken(a);
  }

  lemma FramingOfTwo(a: Lexing.Token, b: Lexing.Token)
    ensures Framing.EncodeTokens([a, b]) == Framing.EncodeToken(a) + Framing.EncodeToken(b)
  {
    assert [a, b][1..] == [b];
    FramingOfOne(b);
  }

  lemma FramingOfThree(a: Lexing.Token, b: Lexing.Token, c: Lexing.Token)
    ensures Framing.EncodeTokens([a, b, c])
      == Framing.EncodeToken(a) + Framing.EncodeToken(b) + Framing.EncodeToken(c)
  {
    assert [a, b, c][1..] == [b, c];
    FramingOfTwo(b, c);
  }

  lemma IntFrame()
    ensures Framing.EncodeToken(Lexing.Integer(-100346)) == ":-100346\r\n"
  {
    assert NatToString(100346) == "100346";
  }

  /** `lex_int`: `:-100346\r\n` lexes to `Integer(-100346)`. */
  lemma LexInt()
    ensures Lexing.Lex(":-100346\r\n").result == Ok(Lexing.Integer(-100346))
  {
    IntFrame();
    Framing.LexRoundTrip(Lexing.Integer(-100346), "");
    assert Framing.EncodeToken(Lexing.Integer(-100346)) + "" == Framing.EncodeToken(Lexing.Integer(-100346));
  }

  lemma HelloFrame()
    ensures Framing.EncodeToken(Lexing.Identifier("hello!")) == "$6\r\nhello!\r\n"
  {
  }

  lemma SubFrame()
    ensures Framing.EncodeToken(Lexing.Subscribe) == "$3\r\nSUB\r\n"
  {
  }

  lemma NumberDigits()
    ensures NatToString(12341234) == "12341234"
  {
    assert NatToString(12) == "12";
    assert NatToString(1234) == "1234";
    assert NatToString(123412) == "123412";
  }

  lemma NumberFrame()
    ensures Framing.EncodeToken(Lexing.Integer(12341234)) == ":12341234\r\n"
  {
    NumberDigits();
  }

  lemma ArrayFraming()
    ensures Framing.EncodeToken(Lexing.Array([Lexing.Identifier("hello!"), Lexing.Subscribe, Lexing.Integer(12341234)]))
      == "*3\r\n" + "$6\r\nhello!\r\n" + "$3\r\nSUB\r\n" + ":12341234\r\n"
  {
    var items := [Lexing.Identifier("hello!"), Lexing.Subscribe, Lexing.Integer(12341234)];
    calc {
      Framing.EncodeToken(Lexing.Array(items));
      "*" + NatToString(3) + "\r\n" + Framing.EncodeTokens(items);
      { FramingOfThree(items[0], items[1], items[2]); HelloFrame(); SubFrame(); NumberFrame(); }
      "*" + "3" + "\r\n" + ("$6\r\nhello!\r\n" + "$3\r\nSUB\r\n" + ":12341234\r\n");
      "*3\r\n" + "$6\r\nhello!\r\n" + "$3\r\nSUB\r\n" + ":12341234\r\n";
    }
  }

  lemma ArrayWellFramed()
    ensures Framing.WellFramed(Lexing.Array([Lexing.Identifier("hello!"), Lexing.Subscribe, Lexing.Integer(12341234)]))
  {
    assert Framing.WellFramed(Lexing.Identifier("hello!"));
  }

  /** `lex_array`: an identifier, a keyword and an integer, in order. */
  lemma LexArray()
    ensures Lexing.Lex("*3\r\n" + "$6\r\nhello!\r\n" + "$3\r\nSUB\r\n" + ":12341234\r\n").result
      == Ok(Lexing.Array([Lexing.Identifier("hello!"), Lexing.Subscribe, Lexing.Integer(12341234)]))
  {
    var t := Lexing.Array([Lexing.Identifier("hello!"), Lexing.Subscribe, Lexing.Integer(12341234)]);
    ArrayFraming();
    ArrayWellFramed();
    Framing.LexRoundTrip(t, "");
    assert Framing.EncodeToken(t) + "" == Framing.EncodeToken(t);
  }

  lemma Val1Frame()
    ensures Framing.EncodeToken(Lexing.Identifier("val1")) == "$4\r\nval1\r\n"
  {
  }

  lemma Val2Frame()
    ensures Framing.EncodeToken(Lexing.Identifier("val2")) == "$4\r\nval2\r\n"
  {
  }

  lemma CreateFrame()
    ensures Framing.EncodeToken(Lexing.Create) == "$6\r\nCREATE\r\n"
  {
  }

  lemma KeyFrame()
    ensures Framing.EncodeToken(Lexing.Identifier("key")) == "$3\r\nkey\r\n"
  {
  }

  lemma InnerFraming()
    ensures Framing.EncodeToken(Lexing.Array([Lexing.Identifier("val1"), Lexing.Identifier("val2")]))
      == "*2\r\n" + "$4\r\nval1\r\n" + "$4\r\nval2\r\n"
  {
    var items := [Lexing.Identifier("val1"), Lexing.Identifier("val2")];
    calc {
      Framing.EncodeToken(Lexing.Array(items));
      "*" + NatToString(2) + "\r\n" + Framing.EncodeTokens(items);
      { FramingOfTwo(items[0], items[1]); Val1Frame(); Val2Frame(); }
      "*" + "2" + "\r\n" + ("$4\r\nval1\r\n" + "$4\r\nval2\r\n");
      "*2\r\n" + "$4\r\nval1\r\n" + "$4\r\nval2\r\n";
    }
  }

  lemma NestedFraming()
    ensures Framing.EncodeToken(Lexing.Array([Lexing.Create, Lexing.Identifier("key"),
        Lexing.Array([Lexing.Identifier("val1"), Lexing.Identifier("val2")])]))
      == "*3\r\n" + "$6\r\nCREATE\r\n" + "$3\r\nkey\r\n" + ("*2\r\n" + "$4\r\nval1\r\n" + "$4\r\nval2\r\n")
  {
    var items := [Lexing.Create, Lexing.Identifier("key"),
      Lexing.Array([Lexing.Identifier("val1"), Lexing.Identifier("val2")])];
    calc {
      Framing.EncodeToken(Lexing.Array(items));
      "*" + NatToString(3) + "\r\n" + Framing.EncodeTokens(items);
      { FramingOfThree(items[0], items[1], items[2]); CreateFrame(); KeyFrame(); InnerFraming(); }
      "*" + "3" + "\r\n" + ("$6\r\nCREATE\r\n" + "$3\r\nkey\r\n" + ("*2\r\n" + "$4\r\nval1\r\n" + "$4\r\nval2\r\n"));
      "*3\r\n" + "$6\r\nCREATE\r\n" + "$3\r\nkey\r\n" + ("*2\r\n" + "$4\r\nval1\r\n" + "$4\r\nval2\r\n");
    }
  }

  lemma NestedWellFramed()
    ensures Framing.WellFramed(Lexing.Array([Lexing.Create, Lexing.Identifier("key"),
      Lexing.Array([Lexing.Identifier("val1"), Lexing.Identifier("val2")])]))
  {
    assert Framing.WellFramed(Lexing.Identifier("val1")) && Framing.WellFramed(Lexing.Identifier("val2"));
    assert Framing.WellFramed(Lexing.Array([Lexing.Identifier("val1"), Lexing.Identifier("val2")]));
    assert Framing.WellFramed(Lexing.Identifier("key"));
  }

  /** `lex_array_nested`: an array inside an array keeps its place. */
  lemma LexArrayNested()
    ensures Lexing.Lex("*3\r\n" + "$6\r\nCREATE\r\n" + "$3\r\nkey\r\n" + ("*2\r\n" + "$4\r\nval1\r\n" + "$4\r\nval2\r\n")).result
      == Ok(Lexing.Array([Lexing.Create, Lexing.Identifier("key"),
        Lexing.Array([Lexing.Identifier("val1"), Lexing.Identifier("val2")])]))
  {
    var t := Lexing.Array([Lexing.Create, Lexing.Identifier("key"),
      Lexing.Array([Lexing.Identifier("val1"), Lexing.Identifier("val2")])]);
    NestedFraming();
    NestedWellFramed();
    Framing.LexRoundTrip(t, "");
    assert Framing.EncodeToken(t) + "" == Framing.EncodeToken(t);
  }

  /** `parse_fail`: a bare integer is not a command batch. */
  lemma ParseFail()
    ensures FromInput(":-100346\r\n") == None
  {
    LexInt();
  }

  /** `parse_cmd`: `SUB key` parses to one subscription. */
  lemma ParseCmd()
    ensures FromInput("*2\r\n" + "$3\r\nSUB\r\n" + "$3\r\nkey\r\n").Some?
    ensures ParseQueue(FromInput("*2\r\n" + "$3\r\nSUB\r\n" + "$3\r\nkey\r\n").value) == Some([Subscribe("key")])
  {
    var cs := [Subscribe("key")];
    var items := [Lexing.Subscribe, Lexing.Identifier("key")];
    assert CommandsTokens(cs) == items by {
      assert cs[1..] == [];
    }
    calc {
      Request(cs);
      "*" + NatToString(2) + "\r\n" + Framing.EncodeTokens(items);
      { FramingOfTwo(items[0], items[1]); SubFrame(); KeyFrame(); }
      "*" + "2" + "\r\n" + ("$3\r\nSUB\r\n" + "$3\r\nkey\r\n");
      "*2\r\n" + "$3\r\nSUB\r\n" + "$3\r\nkey\r\n";
    }
    RequestRoundTrip(cs, "");
    assert Request(cs) + "" == Request(cs);
  }

  lemma CreateArrayTokens()
    ensures CommandsTokens([Create("key", Array([Text("val1"), Text("val2")]))])
      == [Lexing.Create, Lexing.Identifier("key"), Lexing.Array([Lexing.Identifier("val1"), Lexing.Identifier("val2")])]
  {
    var cs := [Create("key", Array([Text("val1"), Text("val2")]))];
    assert cs[1..] == [];
    assert ValuesToTokens([Text("val2")]) == [Lexing.Identifier("val2")];
    assert [Text("val1"), Text("val2")][1..] == [Text("val2")];
    assert ValuesToTokens([Text("val1"), Text("val2")]) == [Lexing.Identifier("val1"), Lexing.Identifier("val2")];
    assert CommandTokens(cs[0]) == [Lexing.Create, Lexing.Identifier("key"),
      Lexing.Array([Lexing.Identifier("val1"), Lexing.Identifier("val2")])];
  }

  lemma CreateArraySendable()
    ensures Sendable([Create("key", Array([Text("val1"), Text("val2")]))])
  {
    var inner := Lexing.Array([Lexing.Identifier("val1"), Lexing.Identifier("val2")]);
    CreateArrayTokens();
    assert Framing.WellFramed(Lexing.Identifier("val1")) && Framing.WellFramed(Lexing.Identifier("val2"));
    assert Framing.WellFramed(inner);
    assert Framing.WellFramed(Lexing.Identifier("key"));
  }

  lemma CreateArrayRequest()
    ensures Request([Create("key", Array([Text("val1"), Text("val2")]))])
      == "*3\r\n" + "$6\r\nCREATE\r\n" + "$3\r\nkey\r\n" + ("*2\r\n" + "$4\r\nval1\r\n" + "$4\r\nval2\r\n")
  {
    CreateArrayTokens();
    NestedFraming();
  }

  /** `parse_array`: the value of a `CREATE` is the whole array after its key. */
  lemma ParseArray()
    ensures FromInput("*3\r\n" + "$6\r\nCREATE\r\n" + "$3\r\nkey\r\n" + ("*2\r\n" + "$4\r\nval1\r\n" + "$4\r\nval2\r\n")).Some?
    ensures ParseQueue(FromInput("*3\r\n" + "$6\r\nCREATE\r\n" + "$3\r\nkey\r\n" + ("*2\r\n" + "$4\r\nval1\r\n" + "$4\r\nval2\r\n")).value)
      == Some([Create("key", Array([Text("val1"), Text("val2")]))])
  {
    var cs := [Create("key", Array([Text("val1"), Text("val2")]))];
    CreateArraySendable();
    CreateArrayRequest();
    RequestRoundTrip(cs, "");
    assert Request(cs) + "" == Request(cs);
  }
}
