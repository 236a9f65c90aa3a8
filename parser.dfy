/**
 * The command layer of src/parser.rs: the values a client sends and gets
 * back, their wire encoding (`Display for Value`), the mapping from lexed
 * tokens to values, and the parser that drains a queue of tokens into
 * commands.
 *
 * `ParseQueue` and its helpers say what `Parser::parse` computes; the class
 * `Parser` keeps the token queue as a field and its methods are proved to
 * compute exactly that.
 */
module Parsing {
  import opened Wrappers
  import opened Decimal
  import Lexing
  import Framing

  type Token = Lexing.Token

  datatype Value =
    | Text(text: string)
    | Integer(number: i64)
    | Array(elems: seq<Value>)
    | Null

  datatype Command =
    | Disconnect
    | Create(key: string, value: Value)
    | Read(key: string)
    | Update(key: string, value: Value)
    | Delete(key: string)
    | Subscribe(key: string)

  /*
   * Encoding
   */

  /**
   * `Display for Value` corrected: the length of a text counted in characters,
   * which is what the lexer takes back. `Null` writes nothing. The server's
   * own replies are `EncodeAsWritten`.
   */
  function Encode(v: Value): (r: string)
    ensures r == [] <==> v.Null?
    ensures v.Text? ==> r[0] == '$'
    ensures v.Integer? ==> r[0] == ':'
    ensures v.Array? ==> r[0] == '*'
  {
    match v
    case Text(s) => Framing.Bulk(s)
    case Integer(i) => Framing.IntegerFrame(i)
    case Array(items) => "*" + NatToString(|items|) + "\r\n" + EncodeAll(items)
    case Null => ""
  }

  /** The elements of an array, each written in turn. */
  function EncodeAll(vs: seq<Value>): string {
    if vs == [] then "" else Encode(vs[0]) + EncodeAll(vs[1..])
  }

  /** The number of bytes the UTF-8 encoding of `c` takes. */
  function Utf8Width(c: char): (n: nat)
    ensures 1 <= n <= 4
    ensures n == 1 <==> c as int < 0x80
  {
    if c as int < 0x80 then 1
    else if c as int < 0x800 then 2
    else if c as int < 0x1_0000 then 3
    else 4
  }

  /** `str::len`: the length of a text in UTF-8 bytes. */
  function Utf8Len(s: string): (n: nat)
    ensures n >= |s|
  {
    if s == [] then 0 else Utf8Width(s[0]) + Utf8Len(s[1..])
  }

  /** `Display for Value` as src/parser.rs:22 writes it: the length field is `s.len()`, in bytes. */
  function EncodeAsWritten(v: Value): (r: string)
    ensures r == [] <==> v.Null?
    ensures v.Text? ==> r[0] == '$'
    ensures v.Integer? ==> r[0] == ':'
    ensures v.Array? ==> r[0] == '*'
  {
    match v
    case Text(s) => "$" + NatToString(Utf8Len(s)) + "\r\n" + s + "\r\n"
    case Integer(i) => Framing.IntegerFrame(i)
    case Array(items) => "*" + NatToString(|items|) + "\r\n" + EncodeAllAsWritten(items)
    case Null => ""
  }

  function EncodeAllAsWritten(vs: seq<Value>): string {
    if vs == [] then "" else EncodeAsWritten(vs[0]) + EncodeAllAsWritten(vs[1..])
  }

  /*
   * Tokens and values
   */

  /** `token_to_value`: keyword tokens have no value and become `Null`. */
  function TokenToValue(t: Token): (v: Value)
    ensures v.Null? <==> Lexing.IsKeyword(t)
    ensures v.Text? <==> t.Identifier?
    ensures v.Integer? <==> t.Integer?
    ensures v.Array? <==> t.Array?
    ensures v.Array? ==> |v.elems| == |t.items|
  {
    match t
    case Identifier(s) => Text(s)
    case Integer(i) => Integer(i)
    case Array(items) => Array(TokensToValues(items))
    case _ => Null
  }

  function TokensToValues(ts: seq<Token>): (vs: seq<Value>)
    ensures |vs| == |ts|
  {
    if ts == [] then [] else [TokenToValue(ts[0])] + TokensToValues(ts[1..])
  }

  /** A value without `Null` anywhere in it: one that some token stands for. */
  predicate NullFree(v: Value) {
    match v
    case Null => false
    case Array(items) => forall k :: 0 <= k < |items| ==> NullFree(items[k])
    case _ => true
  }

  /** A token without a keyword anywhere in it: one that some value stands for. */
  predicate KeywordFree(t: Token) {
    match t
    case Array(items) => forall k :: 0 <= k < |items| ==> KeywordFree(items[k])
    case Identifier(_) => true
    case Integer(_) => true
    case _ => false
  }

  /** The token a value without `Null` is written as. */
  function ValueToToken(v: Value): (t: Token)
    requires NullFree(v)
    ensures KeywordFree(t)
  {
    match v
    case Text(s) => Lexing.Identifier(s)
    case Integer(i) => Lexing.Integer(i)
    case Array(items) => Lexing.Array(ValuesToTokens(items))
  }

  function ValuesToTokens(vs: seq<Value>): (ts: seq<Token>)
    requires forall k :: 0 <= k < |vs| ==> NullFree(vs[k])
    ensures |ts| == |vs|
    ensures forall k :: 0 <= k < |ts| ==> KeywordFree(ts[k])
  {
    if vs == [] then [] else [ValueToToken(vs[0])] + ValuesToTokens(vs[1..])
  }

  /*
   * `Parser::from`
   */

  /**
   * The token queue `Parser::from` builds: the items of the first frame of
   * the input when that frame lexes to an array, and nothing otherwise.
   */
  function FromInput(s: string): Option<seq<Token>> {
    var l := Lexing.Lex(s);
    if l.result.Ok? && l.result.value.Array? then Some(l.result.value.items) else None
  }

  /*
   * `Parser::parse`
   */

  /** The size of a token tree: one for the token and one for each token nested in it. */
  function Size(t: Token): (n: nat)
    ensures n >= 1
  {
    match t
    case Array(items) => 1 + SizeAll(items)
    case _ => 1
  }

  function SizeAll(ts: seq<Token>): nat {
    if ts == [] then 0 else Size(ts[0]) + SizeAll(ts[1..])
  }

  lemma {:induction false} SizeAllAppend(a: seq<Token>, b: seq<Token>)
    ensures SizeAll(a + b) == SizeAll(a) + SizeAll(b)
  {
    if a != [] {
      SizeAllAppend(a[1..], b);
      assert (a + b)[1..] == a[1..] + b;
    } else {
      assert a + b == b;
    }
  }

  /** `expect_identifier`: the key at the front of the queue, when it is an identifier. */
  function KeyAt(q: seq<Token>): Option<string> {
    if q != [] && q[0].Identifier? then Some(q[0].text) else None
  }

  /** `pop_front` of the parser: the value of the front token, if there is one. */
  function ValueAt(q: seq<Token>): Option<Value> {
    if q == [] then None else Some(TokenToValue(q[0]))
  }

  /** `VecDeque::pop_front` on the queue: the front is gone, if there was one. */
  function Dequeue(q: seq<Token>): seq<Token> {
    if q == [] then [] else q[1..]
  }

  /** What one turn of the loop in `parse` does with the token at the front of the queue. */
  datatype Step =
    | Emit(cmd: Command, rest: seq<Token>)
    | Splice(rest: seq<Token>)
    | Fail

  /** The command a keyword takes with it, its arguments taken from `q`. */
  function CommandAt(keyword: Token, q: seq<Token>): Step
    requires Lexing.IsKeyword(keyword)
  {
    if keyword.Disconnect? then Emit(Disconnect, q)
    else if KeyAt(q).None? then Fail
    else
      var key, q1 := KeyAt(q).value, Dequeue(q);
      match keyword
      case Read => Emit(Read(key), q1)
      case Delete => Emit(Delete(key), q1)
      case Subscribe => Emit(Subscribe(key), q1)
      case Create => if ValueAt(q1).None? then Fail else Emit(Create(key, ValueAt(q1).value), Dequeue(q1))
      case Update => if ValueAt(q1).None? then Fail else Emit(Update(key, ValueAt(q1).value), Dequeue(q1))
  }

  /**
   * One turn of the loop: a keyword becomes a command, an array is spliced
   * onto the back of the queue, an identifier or integer stops the parse.
   * Every turn that goes on leaves a smaller queue behind.
   */
  function StepAt(q: seq<Token>): (r: Step)
    requires q != []
    ensures !r.Fail? ==> SizeAll(r.rest) < SizeAll(q)
  {
    var t := q[0];
    match t
    case Array(items) =>
      SizeAllAppend(q[1..], items);
      Splice(q[1..] + items)
    case Identifier(_) => Fail
    case Integer(_) => Fail
    case _ =>
      var r := CommandAt(t, q[1..]);
      assert !r.Fail? ==> SizeAll(r.rest) <= SizeAll(q[1..]) by {
        if q[1..] != [] {
          assert q[1..][1..] == q[2..];
          if q[2..] != [] {
            assert q[2..][1..] == q[3..];
          }
        }
      }
      r
  }

  /** Prepends the commands of one turn to what the rest of the loop gives. */
  function Join(cs: seq<Command>, later: Option<seq<Command>>): Option<seq<Command>> {
    if later.Some? then Some(cs + later.value) else None
  }

  lemma JoinNothing(later: Option<seq<Command>>)
    ensures Join([], later) == later
  {
    if later.Some? {
      assert [] + later.value == later.value;
    }
  }

  lemma JoinJoin(a: seq<Command>, b: seq<Command>, later: Option<seq<Command>>)
    ensures Join(a, Join(b, later)) == Join(a + b, later)
  {
    if later.Some? {
      assert a + (b + later.value) == (a + b) + later.value;
    }
  }

  /** `parse`: the commands of the whole queue, or `None` when any turn fails. */
  function ParseQueue(q: seq<Token>): Option<seq<Command>>
    decreases SizeAll(q)
  {
    if q == [] then Some([])
    else
      match StepAt(q)
      case Fail => None
      case Emit(c, rest) => Join([c], ParseQueue(rest))
      case Splice(rest) => ParseQueue(rest)
  }

  /** The parser of src/parser.rs: a queue of tokens, drained from the front. */
  class Parser {
    var tokens: seq<Token>

    constructor (tokens: seq<Token>)
      ensures this.tokens == tokens
    {
      this.tokens := tokens;
    }

    /** `Parser::from`: a parser over the items of the input's first frame, when that is an array. */
    static method From(s: string) returns (p: Option<Parser>)
      ensures p.Some? <==> FromInput(s).Some?
      ensures p.Some? ==> fresh(p.value) && p.value.tokens == FromInput(s).value
    {
      var lexer := new Lexing.Lexer.From(s);
      var t := lexer.Lex();
      if t.Ok? && t.value.Array? {
        var parser := new Parser(t.value.items);
        p := Some(parser);
      } else {
        p := None;
      }
    }

    /** `expect_identifier`: pops the front token, and yields its text when it is an identifier. */
    method ExpectIdentifier() returns (r: Option<string>)
      modifies this
      ensures r == KeyAt(old(tokens)) && tokens == Dequeue(old(tokens))
    {
      if tokens == [] {
        return None;
      }
      var t := tokens[0];
      tokens := tokens[1..];
      match t
      case Identifier(s) => r := Some(s);
      case _ => r := None;
    }

    /** `pop_front`: pops the front token and yields its value. */
    method PopFront() returns (r: Option<Value>)
      modifies this
      ensures r == ValueAt(old(tokens)) && tokens == Dequeue(old(tokens))
    {
      if tokens == [] {
        return None;
      }
      var t := tokens[0];
      tokens := tokens[1..];
      r := Some(TokenToValue(t));
    }

    /** `parse`: drains the queue into commands; `None` as soon as one turn fails. */
    method Parse() returns (r: Option<seq<Command>>)
      modifies this
      ensures r == ParseQueue(old(tokens))
      ensures r.Some? ==> tokens == []
    {
      var cmd: seq<Command> := [];
      JoinNothing(ParseQueue(tokens));
      while tokens != []
        invariant Join(cmd, ParseQueue(tokens)) == ParseQueue(old(tokens))
        decreases SizeAll(tokens)
      {
        ghost var q := tokens;
        var token := tokens[0];
        tokens := tokens[1..];
        match token {
          case Disconnect =>
            JoinJoin(cmd, [Disconnect], ParseQueue(tokens));
            cmd := cmd + [Disconnect];
          case Create =>
            var key := ExpectIdentifier();
            if key.None? {
              return None;
            }
            var value := PopFront();
            if value.None? {
              return None;
            }
            JoinJoin(cmd, [Create(key.value, value.value)], ParseQueue(tokens));
            cmd := cmd + [Create(key.value, value.value)];
          case Read =>
            var key := ExpectIdentifier();
            if key.None? {
              return None;
            }
            JoinJoin(cmd, [Read(key.value)], ParseQueue(tokens));
            cmd := cmd + [Read(key.value)];
          case Update =>
            var key := ExpectIdentifier();
            if key.None? {
              return None;
            }
            var value := PopFront();
            if value.None? {
              return None;
            }
            JoinJoin(cmd, [Update(key.value, value.value)], ParseQueue(tokens));
            cmd := cmd + [Update(key.value, value.value)];
          case Delete =>
            var key := ExpectIdentifier();
            if key.None? {
              return None;
            }
            JoinJoin(cmd, [Delete(key.value)], ParseQueue(tokens));
            cmd := cmd + [Delete(key.value)];
          case Subscribe =>
            var key := ExpectIdentifier();
            if key.None? {
              return None;
            }
            JoinJoin(cmd, [Subscribe(key.value)], ParseQueue(tokens));
            cmd := cmd + [Subscribe(key.value)];
          case Array(items) =>
            tokens := tokens + items;
          case _ =>
            return None;
        }
      }
      assert cmd + [] == cmd;
      r := Some(cmd);
    }
  }
}
