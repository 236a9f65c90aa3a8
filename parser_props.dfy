/**
 * What src/parser.rs promises about its values and commands: `token_to_value`
 * undoes the token a value is written as, `Display` writes what the lexer
 * reads back, and `parse` turns a queue of command tokens into those
 * commands in order, splicing nested arrays onto the back of the queue.
 */
module ParsingFacts {
  import opened Wrappers
  import opened Decimal
  import Lexing
  import Framing
  import opened Parsing

  /*
   * Tokens and values
   */

  lemma {:induction false} TokensToValuesAt(ts: seq<Token>, k: nat)
    requires k < |ts|
    ensures TokensToValues(ts)[k] == TokenToValue(ts[k])
  {
    if k > 0 {
      TokensToValuesAt(ts[1..], k - 1);
    }
  }

  /** `token_to_value` maps an array element by element, keeping length and order. */
  lemma TokenToValueElements(t: Token)
    requires t.Array?
    ensures TokenToValue(t).Array? && |TokenToValue(t).elems| == |t.items|
    ensures forall k :: 0 <= k < |t.items| ==> TokenToValue(t).elems[k] == TokenToValue(t.items[k])
  {
    forall k | 0 <= k < |t.items|
      ensures TokenToValue(t).elems[k] == TokenToValue(t.items[k])
    {
      TokensToValuesAt(t.items, k);
    }
  }

  lemma {:induction false} ValuesToTokensAt(vs: seq<Value>, k: nat)
    requires forall i :: 0 <= i < |vs| ==> NullFree(vs[i])
    requires k < |vs|
    ensures ValuesToTokens(vs)[k] == ValueToToken(vs[k])
  {
    if k > 0 {
      ValuesToTokensAt(vs[1..], k - 1);
    }
  }

  /** A value without `Null` comes back from the token it is written as. */
  lemma {:induction false} ValueTokenValue(v: Value)
    requires NullFree(v)
    ensures TokenToValue(ValueToToken(v)) == v
    decreases v, 1
  {
    if v.Array? {
      ValuesTokensValues(v.elems);
    }
  }

  lemma {:induction false} ValuesTokensValues(vs: seq<Value>)
    requires forall k :: 0 <= k < |vs| ==> NullFree(vs[k])
    ensures TokensToValues(ValuesToTokens(vs)) == vs
    decreases vs, 0
  {
    if vs != [] {
      ValueTokenValue(vs[0]);
      ValuesTokensValues(vs[1..]);
      assert ValuesToTokens(vs)[1..] == ValuesToTokens(vs[1..]);
    }
  }

  /** A token without a keyword is the token its value is written as. */
  lemma {:induction false} TokenValueToken(t: Token)
    requires KeywordFree(t)
    ensures NullFree(TokenToValue(t)) && ValueToToken(TokenToValue(t)) == t
    decreases t, 1
  {
    if t.Array? {
      TokensValuesTokens(t.items);
    }
  }

  lemma {:induction false} TokensValuesTokens(ts: seq<Token>)
    requires forall k :: 0 <= k < |ts| ==> KeywordFree(ts[k])
    ensures forall k :: 0 <= k < |ts| ==> NullFree(TokensToValues(ts)[k])
    ensures ValuesToTokens(TokensToValues(ts)) == ts
    decreases ts, 0
  {
    if ts != [] {
      TokenValueToken(ts[0]);
      TokensValuesTokens(ts[1..]);
      var vs := TokensToValues(ts);
      assert vs[1..] == TokensToValues(ts[1..]);
      forall k | 0 <= k < |ts|
        ensures NullFree(vs[k])
      {
        if k > 0 {
          assert vs[k] == vs[1..][k - 1];
        }
      }
    }
  }

  /*
   * Encoding
   */

  /** `Display` of a value without `Null` is the framing of the token it is written as. */
  lemma {:induction false} EncodeIsFraming(v: Value)
    requires NullFree(v)
    ensures Encode(v) == Framing.EncodeToken(ValueToToken(v))
    decreases v, 1
  {
    if v.Array? {
      EncodeAllIsFraming(v.elems);
    }
  }

  lemma {:induction false} EncodeAllIsFraming(vs: seq<Value>)
    requires forall k :: 0 <= k < |vs| ==> NullFree(vs[k])
    ensures EncodeAll(vs) == Framing.EncodeTokens(ValuesToTokens(vs))
    decreases vs, 0
  {
    if vs != [] {
      EncodeIsFraming(vs[0]);
      EncodeAllIsFraming(vs[1..]);
      assert ValuesToTokens(vs)[1..] == ValuesToTokens(vs[1..]);
    }
  }

  /**
   * A value whose encoding the lexer gives back: no `Null`, no text that
   * spells a reserved word, and no length beyond `usize`.
   */
  predicate Transmissible(v: Value) {
    NullFree(v) && Framing.WellFramed(ValueToToken(v))
  }

  /**
   * Round trip: lexing the encoding of a transmissible value, and mapping the
   * token to a value, gives the value back; input after it is left unread.
   */
  lemma ValueRoundTrip(v: Value, rest: string)
    requires Transmissible(v)
    ensures Lexing.Lex(Encode(v) + rest).result.Ok?
    ensures TokenToValue(Lexing.Lex(Encode(v) + rest).result.value) == v
    ensures Lexing.Lex(Encode(v) + rest).cursor.idx == |Encode(v)|
  {
    EncodeIsFraming(v);
    Framing.LexRoundTrip(ValueToToken(v), rest);
    ValueTokenValue(v);
  }

  /** A text that spells a reserved word is read back as its keyword, whose value is `Null`. */
  lemma ReservedTextReadsAsNull(s: string)
    requires Lexing.IsReserved(s)
    ensures Lexing.Lex(Encode(Text(s))).result.Ok?
    ensures Lexing.IsKeyword(Lexing.Lex(Encode(Text(s))).result.value)
    ensures TokenToValue(Lexing.Lex(Encode(Text(s))).result.value) == Null
  {
    var e := Encode(Text(s));
    assert e[0..|Framing.Bulk(s)|] == Framing.Bulk(s);
    Framing.LexBulk(e, Lexing.Cursor(0, 0), s);
    Framing.IdentifyClassifies(s);
  }

  /*
   * The byte length of the source's encoder
   */

  predicate AsciiText(s: string) {
    forall k :: 0 <= k < |s| ==> s[k] as int < 0x80
  }

  /** A value whose texts are all ASCII. */
  predicate AsciiOnly(v: Value) {
    match v
    case Text(s) => AsciiText(s)
    case Array(items) => forall k :: 0 <= k < |items| ==> AsciiOnly(items[k])
    case _ => true
  }

  /** A text's UTF-8 length is its character count exactly when it is ASCII. */
  lemma {:induction false} Utf8LenCountsChars(s: string)
    ensures Utf8Len(s) == |s| <==> AsciiText(s)
  {
    if s != [] {
      Utf8LenCountsChars(s[1..]);
      assert AsciiText(s) <==> s[0] as int < 0x80 && AsciiText(s[1..]) by {
        assert forall k :: 0 < k < |s| ==> s[k] == s[1..][k - 1];
      }
    }
  }

  /** On ASCII values the encoder as written and the character-counting encoder agree. */
  lemma {:induction false} AsWrittenAgreesOnAscii(v: Value)
    requires AsciiOnly(v)
    ensures EncodeAsWritten(v) == Encode(v)
    decreases v, 1
  {
    match v
    case Text(s) => Utf8LenCountsChars(s);
    case Array(items) => AllAsWrittenAgreeOnAscii(items);
    case _ =>
  }

  lemma {:induction false} AllAsWrittenAgreeOnAscii(vs: seq<Value>)
    requires forall k :: 0 <= k < |vs| ==> AsciiOnly(vs[k])
    ensures EncodeAllAsWritten(vs) == EncodeAll(vs)
    decreases vs, 0
  {
    if vs != [] {
      AsWrittenAgreesOnAscii(vs[0]);
      AllAsWrittenAgreeOnAscii(vs[1..]);
    }
  }

  /** Any text with a character outside ASCII gets a length field larger than the characters that follow it. */
  lemma AsWrittenOvercounts(s: string)
    requires !AsciiText(s)
    ensures Utf8Len(s) > |s|
  {
    Utf8LenCountsChars(s);
  }

  /** `$2\r\né\r\n`, cut where the lexer cuts it: a payload of two characters, then '\n'. */
  lemma AsWrittenPieces()
    ensures EncodeAsWritten(Text("\U{E9}")) == "$" + NatToString(|"\U{E9}\r"|) + "\r\n" + "\U{E9}\r" + ['\n']
  {
    assert Utf8Len("\U{E9}") == 2;
  }

  /**
   * The text "é" (one character, two bytes) is written as `$2\r\né\r\n`;
   * the lexer takes two characters, "é\r", and then finds '\n' where it
   * wants '\r'.
   */
  lemma AsWrittenLosesText()
    ensures Lexing.Lex(EncodeAsWritten(Text("\U{E9}"))).result == Err(Lexing.Expected('\r', '\n', 4))
  {
    var s := EncodeAsWritten(Text("\U{E9}"));
    AsWrittenPieces();
    assert s[0..|s|] == s;
    Framing.LexBulkBadTerminator(s, Lexing.Cursor(0, 0), "\U{E9}\r", '\n');
    assert |NatToString(2)| == 1;
  }

  /** The character-counting encoder writes `$1\r\né\r\n`, which reads back. */
  lemma CharCountKeepsText()
    ensures Lexing.Lex(Encode(Text("\U{E9}"))).result == Ok(Lexing.Identifier("\U{E9}"))
  {
    assert !Lexing.IsReserved("\U{E9}");
    ValueRoundTrip(Text("\U{E9}"), "");
    assert Encode(Text("\U{E9}")) + "" == Encode(Text("\U{E9}"));
  }

  /*
   * Parsing
   */

  /** An array at command position is replaced by its items at the back of the queue. */
  lemma ParseSplicesArray(items: seq<Token>, q: seq<Token>)
    ensures ParseQueue([Lexing.Array(items)] + q) == ParseQueue(q + items)
  {
    assert ([Lexing.Array(items)] + q)[1..] == q;
  }

  /** An identifier or an integer at command position makes the whole parse fail. */
  lemma ParseRejectsBareArgument(t: Token, q: seq<Token>)
    requires t.Identifier? || t.Integer?
    ensures ParseQueue([t] + q) == None
  {
  }

  /** A command that takes a key fails when the next token is missing or is not an identifier. */
  lemma ParseRejectsBadKey(keyword: Token, q: seq<Token>)
    requires Lexing.IsKeyword(keyword) && !keyword.Disconnect?
    requires q == [] || !q[0].Identifier?
    ensures ParseQueue([keyword] + q) == None
  {
    assert ([keyword] + q)[1..] == q;
  }

  /** `CREATE` and `UPDATE` fail when their key is the last token. */
  lemma ParseRejectsMissingValue(keyword: Token, key: string)
    requires keyword.Create? || keyword.Update?
    ensures ParseQueue([keyword, Lexing.Identifier(key)]) == None
  {
    assert [keyword, Lexing.Identifier(key)][1..] == [Lexing.Identifier(key)];
    assert [Lexing.Identifier(key)][1..] == [];
  }

  /** A command whose value, if it has one, is free of `Null`: one a token list stands for. */
  predicate Expressible(c: Command) {
    (c.Create? || c.Update?) ==> NullFree(c.value)
  }

  /** The tokens a client sends for a command: the keyword, the key, the value. */
  function CommandTokens(c: Command): (ts: seq<Token>)
    requires Expressible(c)
    ensures |ts| >= 1 && Lexing.IsKeyword(ts[0])
  {
    match c
    case Disconnect => [Lexing.Disconnect]
    case Create(k, v) => [Lexing.Create, Lexing.Identifier(k), ValueToToken(v)]
    case Read(k) => [Lexing.Read, Lexing.Identifier(k)]
    case Update(k, v) => [Lexing.Update, Lexing.Identifier(k), ValueToToken(v)]
    case Delete(k) => [Lexing.Delete, Lexing.Identifier(k)]
    case Subscribe(k) => [Lexing.Subscribe, Lexing.Identifier(k)]
  }

  predicate AllExpressible(cs: seq<Command>) {
    forall k :: 0 <= k < |cs| ==> Expressible(cs[k])
  }

  function CommandsTokens(cs: seq<Command>): seq<Token>
    requires AllExpressible(cs)
  {
    if cs == [] then [] else CommandTokens(cs[0]) + CommandsTokens(cs[1..])
  }

  /** One command's tokens at the front of the queue give that command, then the rest is parsed. */
  lemma ParseCommand(c: Command, q: seq<Token>)
    requires Expressible(c)
    ensures ParseQueue(CommandTokens(c) + q) == Join([c], ParseQueue(q))
  {
    var all := CommandTokens(c) + q;
    match c
    case Disconnect =>
      assert all[1..] == q;
    case Create(k, v) =>
      ValueTokenValue(v);
      assert all[1..] == [Lexing.Identifier(k), ValueToToken(v)] + q;
      assert all[1..][1..] == [ValueToToken(v)] + q;
      assert all[1..][1..][1..] == q;
    case Update(k, v) =>
      ValueTokenValue(v);
      assert all[1..] == [Lexing.Identifier(k), ValueToToken(v)] + q;
      assert all[1..][1..] == [ValueToToken(v)] + q;
      assert all[1..][1..][1..] == q;
    case _ =>
      assert all[1..] == [Lexing.Identifier(c.key)] + q;
      assert all[1..][1..] == q;
  }

  /** A flat queue of command tokens parses to those commands, in order, followed by what the rest gives. */
  lemma {:induction false} ParseCommands(cs: seq<Command>, q: seq<Token>)
    requires AllExpressible(cs)
    ensures ParseQueue(CommandsTokens(cs) + q) == Join(cs, ParseQueue(q))
  {
    if cs == [] {
      assert CommandsTokens(cs) + q == q;
      JoinNothing(ParseQueue(q));
    } else {
      var rest := CommandsTokens(cs[1..]) + q;
      assert CommandsTokens(cs) + q == CommandTokens(cs[0]) + rest;
      ParseCommand(cs[0], rest);
      ParseCommands(cs[1..], q);
      JoinJoin([cs[0]], cs[1..], ParseQueue(q));
      assert [cs[0]] + cs[1..] == cs;
    }
  }

  /** A queue holding exactly the tokens of some commands parses to exactly those commands. */
  lemma ParseFlatQueue(cs: seq<Command>)
    requires AllExpressible(cs)
    ensures ParseQueue(CommandsTokens(cs)) == Some(cs)
  {
    ParseCommands(cs, []);
    assert CommandsTokens(cs) + [] == CommandsTokens(cs);
    assert cs + [] == cs;
  }

  /*
   * `Parser::from` and `parse` together
   */

  /** The request a client writes for a batch of commands: one array frame holding their tokens. */
  function Request(cs: seq<Command>): string
    requires AllExpressible(cs)
  {
    Framing.EncodeToken(Lexing.Array(CommandsTokens(cs)))
  }

  /** A batch whose request the server reads back: every key and text framed as itself. */
  predicate Sendable(cs: seq<Command>) {
    AllExpressible(cs) && Framing.WellFramed(Lexing.Array(CommandsTokens(cs)))
  }

  /**
   * The server's reading of a request: `Parser::from` finds the batch's
   * tokens, whatever follows the frame, and `parse` gives the batch back.
   */
  lemma RequestRoundTrip(cs: seq<Command>, rest: string)
    requires Sendable(cs)
    ensures FromInput(Request(cs) + rest) == Some(CommandsTokens(cs))
    ensures ParseQueue(CommandsTokens(cs)) == Some(cs)
  {
    Framing.LexRoundTrip(Lexing.Array(CommandsTokens(cs)), rest);
    ParseFlatQueue(cs);
  }
}
