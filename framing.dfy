/**
 * The wire framing the lexer of src/lexer.rs reads, written out as an
 * encoder of tokens, and what the lexer does with framed input: every
 * well-framed token comes back unchanged. These malformed shapes fail with
 * the error the source gives them: empty input, a bad first character, a
 * length field without digits or without its CRLF, a payload not followed
 * by `\r`, and an integer line that is not an `i64`.
 */
module Framing {
  import opened Wrappers
  import opened Decimal
  import opened Lexing

  /** The reserved word a keyword token is spelled as. */
  function Word(t: Token): string
    requires IsKeyword(t)
  {
    match t
    case Disconnect => "DISCONNECT"
    case Create => "CREATE"
    case Read => "READ"
    case Update => "UPDATE"
    case Delete => "DELETE"
    case Subscribe => "SUB"
  }

  /** `$<len>\r\n<payload>\r\n`, the length counted in characters. */
  function Bulk(p: string): string {
    "$" + NatToString(|p|) + "\r\n" + p + "\r\n"
  }

  /** `:<integer>\r\n`. */
  function IntegerFrame(i: int): string {
    ":" + IntToString(i) + "\r\n"
  }

  function EncodeToken(t: Token): string {
    match t
    case Array(items) => "*" + NatToString(|items|) + "\r\n" + EncodeTokens(items)
    case Identifier(p) => Bulk(p)
    case Integer(i) => IntegerFrame(i)
    case _ => Bulk(Word(t))
  }

  function EncodeTokens(ts: seq<Token>): string {
    if ts == [] then "" else EncodeToken(ts[0]) + EncodeTokens(ts[1..])
  }

  /**
   * A token its own framing gives back: identifiers that do not spell a
   * reserved word, and lengths that fit a `usize`.
   */
  predicate WellFramed(t: Token) {
    match t
    case Identifier(p) => !IsReserved(p) && |p| <= UsizeMax
    case Array(items) => |items| <= UsizeMax && forall k :: 0 <= k < |items| ==> WellFramed(items[k])
    case _ => true
  }

  /** The keyword classification is exact and case-sensitive: reserved words and nothing else. */
  lemma IdentifyClassifies(s: string)
    ensures IsKeyword(Identify(s)) <==> IsReserved(s)
    ensures IsReserved(s) ==> Word(Identify(s)) == s
    ensures !IsReserved(s) ==> Identify(s) == Identifier(s)
  {
  }

  lemma IdentifyWord(t: Token)
    requires IsKeyword(t)
    ensures IsReserved(Word(t)) && Identify(Word(t)) == t
  {
  }

  /** The input holds the piece `f` at offset `i`. */
  predicate FramedAt(s: string, i: nat, f: string) {
    i + |f| <= |s| && s[i..i + |f|] == f
  }

  /** Splits a framed slice of the input at the boundary between two pieces. */
  lemma Peel(s: string, i: nat, a: string, b: string)
    requires i + |a| + |b| <= |s| && s[i..i + |a| + |b|] == a + b
    ensures s[i..i + |a|] == a && s[i + |a|..i + |a| + |b|] == b
  {
    assert s[i..i + |a|] == (a + b)[..|a|];
    assert s[i + |a|..i + |a| + |b|] == (a + b)[|a|..];
  }

  /** A scan for digits over a framed run of digits `e` stops right after it. */
  lemma {:induction false} DigitsOver(s: string, i: nat, e: string)
    requires i + |e| <= |s| && s[i..i + |e|] == e && AllDigits(e)
    requires i + |e| < |s| ==> !IsDigit(s[i + |e|])
    ensures DigitsEnd(s, i) == i + |e|
    decreases |e|
  {
    if e != [] {
      assert s[i] == e[0];
      assert s[i + 1..i + 1 + |e[1..]|] == e[1..];
      DigitsOver(s, i + 1, e[1..]);
    }
  }

  /** A scan for '\r' over a framed piece `e` without one stops right after it. */
  lemma {:induction false} TextOver(s: string, i: nat, e: string)
    requires i + |e| <= |s| && s[i..i + |e|] == e
    requires forall k :: 0 <= k < |e| ==> e[k] != '\r'
    requires i + |e| < |s| ==> s[i + |e|] == '\r'
    ensures TextEnd(s, i) == i + |e|
    decreases |e|
  {
    if e != [] {
      assert s[i] == e[0];
      assert s[i + 1..i + 1 + |e[1..]|] == e[1..];
      TextOver(s, i + 1, e[1..]);
    }
  }

  /** The character at offset `k` of a framed piece. */
  lemma CharAt(s: string, i: nat, e: string, k: nat)
    requires i + |e| <= |s| && s[i..i + |e|] == e && k < |e|
    ensures s[i + k] == e[k]
  {
    assert s[i..i + |e|][k] == s[i + k];
  }

  /** A length field `<digits>\r\n` parses to the digits' value and ends after the CRLF. */
  lemma LengthField(s: string, c: Cursor, d: string)
    requires AllDigits(d) && ParseUsize(d).Some?
    requires c.idx + |d| + 2 <= |s| && s[c.idx..c.idx + |d| + 2] == d + "\r\n"
    ensures LengthAt(s, c) == Lexed(Ok(ParseUsize(d).value), Cursor(c.idx + |d| + 2, c.pos + |d| + 2))
  {
    ParseUsizeOfDigits(d);
    var j := c.idx + |d|;
    assert s[c.idx..j] == d && s[j] == '\r' && s[j + 1] == '\n' by {
      Peel(s, c.idx, d, "\r\n");
      CharAt(s, j, "\r\n", 0);
      CharAt(s, j, "\r\n", 1);
    }
    assert DigitsEnd(s, c.idx) == j by {
      DigitsOver(s, c.idx, d);
    }
  }

  /** The length field `{}` writes for `n`. */
  lemma LengthFieldOf(s: string, c: Cursor, n: nat)
    requires n <= UsizeMax
    requires FramedAt(s, c.idx, NatToString(n) + "\r\n")
    ensures LengthAt(s, c) == Lexed(Ok(n), Cursor(c.idx + |NatToString(n)| + 2, c.pos + |NatToString(n)| + 2))
  {
    ParseUsizeOfString(n);
    LengthField(s, c, NatToString(n));
  }

  /** The pieces of a bulk frame `$<d>\r\n<p>\r\n` at offset `i`. */
  lemma BulkPieces(s: string, i: nat, d: string, p: string)
    requires FramedAt(s, i, "$" + d + "\r\n" + p + "\r\n")
    ensures s[i] == '$' && s[i + 1..i + 3 + |d|] == d + "\r\n"
    ensures s[i + 3 + |d|..i + 3 + |d| + |p|] == p
    ensures s[i + 3 + |d| + |p|] == '\r' && s[i + 4 + |d| + |p|] == '\n'
  {
    var j := i + 3 + |d| + |p|;
    Peel(s, i, "$" + d + "\r\n" + p, "\r\n");
    Peel(s, i, "$" + d + "\r\n", p);
    Peel(s, i, "$", d + "\r\n");
    CharAt(s, i, "$", 0);
    CharAt(s, j, "\r\n", 0);
    CharAt(s, j, "\r\n", 1);
  }

  /**
   * After the `$`: a length field with the payload's length as value, the
   * payload, CRLF. `pos` moves over the CRLF but not over the payload.
   */
  lemma BulkWith(s: string, c: Cursor, p: string, k: nat, q: nat)
    requires c.idx + 1 <= k && k + |p| + 2 <= |s|
    requires LengthAt(s, Cursor(c.idx + 1, c.pos + 1)) == Lexed(Ok(|p|), Cursor(k, q))
    requires s[k..k + |p|] == p && s[k + |p|] == '\r' && s[k + |p| + 1] == '\n'
    ensures BulkAt(s, c) == Lexed(Ok(Identify(p)), Cursor(k + |p| + 2, q + 2))
  {
  }

  /** After the `$`: a digit string `d` with the payload's length as value, CRLF, payload, CRLF. */
  lemma BulkAfterDigits(s: string, c: Cursor, d: string, p: string)
    requires AllDigits(d) && ParseUsize(d) == Some(|p|)
    requires c.idx + 5 + |d| + |p| <= |s|
    requires s[c.idx + 1..c.idx + 3 + |d|] == d + "\r\n"
    requires s[c.idx + 3 + |d|..c.idx + 3 + |d| + |p|] == p
    requires s[c.idx + 3 + |d| + |p|] == '\r' && s[c.idx + 4 + |d| + |p|] == '\n'
    ensures BulkAt(s, c) == Lexed(Ok(Identify(p)), Cursor(c.idx + |d| + |p| + 5, c.pos + |d| + 5))
  {
    LengthField(s, Cursor(c.idx + 1, c.pos + 1), d);
    BulkWith(s, c, p, c.idx + 3 + |d|, c.pos + 3 + |d|);
  }

  /** A bulk frame whose length field is any digit string with the payload's length as value. */
  lemma BulkDigits(s: string, c: Cursor, d: string, p: string)
    requires AllDigits(d) && ParseUsize(d) == Some(|p|)
    requires FramedAt(s, c.idx, "$" + d + "\r\n" + p + "\r\n")
    ensures BulkAt(s, c) == Lexed(Ok(Identify(p)), Cursor(c.idx + |d| + |p| + 5, c.pos + |d| + 5))
  {
    BulkPieces(s, c.idx, d, p);
    BulkAfterDigits(s, c, d, p);
  }

  /** The `$` branch reads back the bulk frame of `p`. */
  lemma BulkFrame(s: string, c: Cursor, p: string)
    requires |p| <= UsizeMax
    requires c.idx + |Bulk(p)| <= |s| && s[c.idx..c.idx + |Bulk(p)|] == Bulk(p)
    ensures c.idx < |s| && s[c.idx] == '$'
    ensures BulkAt(s, c) == Lexed(Ok(Identify(p)), Cursor(c.idx + |Bulk(p)|, c.pos + |Bulk(p)| - |p|))
  {
    ParseUsizeOfString(|p|);
    BulkDigits(s, c, NatToString(|p|), p);
    CharAt(s, c.idx, Bulk(p), 0);
  }

  /**
   * `$<len>\r\n`, exactly `len` characters of any kind, then CRLF, lexes to the
   * payload, reclassified as a keyword when it spells one. `pos` ends short of
   * the cursor by the payload's length.
   */
  lemma LexBulk(s: string, c: Cursor, p: string)
    requires |p| <= UsizeMax
    requires c.idx + |Bulk(p)| <= |s| && s[c.idx..c.idx + |Bulk(p)|] == Bulk(p)
    ensures LexAt(s, c) == Lexed(Ok(Identify(p)), Cursor(c.idx + |Bulk(p)|, c.pos + |Bulk(p)| - |p|))
  {
    BulkFrame(s, c, p);
  }

  /** The pieces of a bulk frame whose payload is followed by `x` at offset `i`. */
  lemma UnterminatedPieces(s: string, i: nat, d: string, p: string, x: char)
    requires FramedAt(s, i, "$" + d + "\r\n" + p + [x])
    ensures s[i] == '$' && FramedAt(s, i + 1, d + "\r\n")
    ensures i + 3 + |d| + |p| < |s| && s[i + 3 + |d| + |p|] == x
  {
    Peel(s, i, "$" + d + "\r\n" + p, [x]);
    Peel(s, i, "$" + d + "\r\n", p);
    Peel(s, i, "$", d + "\r\n");
    CharAt(s, i, "$", 0);
    CharAt(s, i + 3 + |d| + |p|, [x], 0);
  }

  /** After the `$` and the length field: a payload followed by anything but '\r'. */
  lemma UnterminatedWith(s: string, c: Cursor, n: nat, k: nat, q: nat)
    requires c.idx + 1 <= k && k + n < |s|
    requires LengthAt(s, Cursor(c.idx + 1, c.pos + 1)) == Lexed(Ok(n), Cursor(k, q))
    requires s[k + n] != '\r'
    ensures BulkAt(s, c) == Lexed(Err(Expected('\r', s[k + n], q)), Cursor(k + n, q))
  {
  }

  /** After the `$`: the length field of `n`, `n` characters, then `x`, which is not '\r'. */
  lemma UnterminatedAfterLength(s: string, c: Cursor, n: nat, x: char)
    requires n <= UsizeMax && x != '\r'
    requires FramedAt(s, c.idx + 1, NatToString(n) + "\r\n")
    requires c.idx + 3 + |NatToString(n)| + n < |s| && s[c.idx + 3 + |NatToString(n)| + n] == x
    ensures BulkAt(s, c) == Lexed(Err(Expected('\r', x, c.pos + 3 + |NatToString(n)|)),
      Cursor(c.idx + 3 + |NatToString(n)| + n, c.pos + 3 + |NatToString(n)|))
  {
    LengthFieldOf(s, Cursor(c.idx + 1, c.pos + 1), n);
    UnterminatedWith(s, c, n, c.idx + 1 + |NatToString(n)| + 2, c.pos + 1 + |NatToString(n)| + 2);
  }

  /**
   * A bulk payload not followed by '\r' fails with `Expected('\r', found, pos)`.
   * The position reported leaves the payload out: `take` does not advance `pos`.
   */
  lemma LexBulkBadTerminator(s: string, c: Cursor, p: string, x: char)
    requires |p| <= UsizeMax && x != '\r'
    requires FramedAt(s, c.idx, "$" + NatToString(|p|) + "\r\n" + p + [x])
    ensures LexAt(s, c) == Lexed(Err(Expected('\r', x, c.pos + 3 + |NatToString(|p|)|)),
      Cursor(c.idx + 3 + |NatToString(|p|)| + |p|, c.pos + 3 + |NatToString(|p|)|))
  {
    UnterminatedBulk(s, c, p, x);
    LexAtCases(s, c);
  }

  lemma UnterminatedBulk(s: string, c: Cursor, p: string, x: char)
    requires |p| <= UsizeMax && x != '\r'
    requires FramedAt(s, c.idx, "$" + NatToString(|p|) + "\r\n" + p + [x])
    ensures c.idx < |s| && s[c.idx] == '$'
    ensures BulkAt(s, c) == Lexed(Err(Expected('\r', x, c.pos + 3 + |NatToString(|p|)|)),
      Cursor(c.idx + 3 + |NatToString(|p|)| + |p|, c.pos + 3 + |NatToString(|p|)|))
  {
    UnterminatedPieces(s, c.idx, NatToString(|p|), p, x);
    UnterminatedAfterLength(s, c, |p|, x);
  }

  /** The pieces of an integer frame `:<t>\r\n` at offset `i`. */
  lemma IntegerPieces(s: string, i: nat, t: string)
    requires FramedAt(s, i, ":" + t + "\r\n")
    ensures s[i] == ':' && s[i + 1..i + 1 + |t|] == t
    ensures s[i + 1 + |t|] == '\r' && s[i + 2 + |t|] == '\n'
  {
    var j := i + 1 + |t|;
    Peel(s, i, ":" + t, "\r\n");
    Peel(s, i, ":", t);
    CharAt(s, i, ":", 0);
    CharAt(s, j, "\r\n", 0);
    CharAt(s, j, "\r\n", 1);
  }

  /** After the `:`: text without '\r', then CRLF; the text is parsed as an `i64`. */
  lemma IntegerWith(s: string, c: Cursor, t: string)
    requires forall k :: 0 <= k < |t| ==> t[k] != '\r'
    requires c.idx + 3 + |t| <= |s| && s[c.idx + 1..c.idx + 1 + |t|] == t
    requires s[c.idx + 1 + |t|] == '\r' && s[c.idx + 2 + |t|] == '\n'
    ensures IntegerAt(s, c).cursor == Cursor(c.idx + |t| + 3, c.pos + |t| + 3)
    ensures IntegerAt(s, c).result == if ParseI64(t).Some? then Ok(Integer(ParseI64(t).value)) else Err(Parse)
  {
    assert TextEnd(s, c.idx + 1) == c.idx + 1 + |t| by {
      TextOver(s, c.idx + 1, t);
    }
  }

  /** `:<integer>\r\n` lexes to that integer; CRLF ends the field. */
  lemma LexIntegerFrame(s: string, c: Cursor, v: i64)
    requires FramedAt(s, c.idx, IntegerFrame(v))
    ensures LexAt(s, c) == Lexed(Ok(Integer(v)), Cursor(c.idx + |IntegerFrame(v)|, c.pos + |IntegerFrame(v)|))
  {
    IntegerOfFrame(s, c, v);
    LexAtCases(s, c);
  }

  /** After the `:` of an integer frame: its text parses back to the number. */
  lemma IntegerOfFrame(s: string, c: Cursor, v: i64)
    requires FramedAt(s, c.idx, IntegerFrame(v))
    ensures c.idx < |s| && s[c.idx] == ':'
    ensures IntegerAt(s, c) == Lexed(Ok(Integer(v)), Cursor(c.idx + |IntegerFrame(v)|, c.pos + |IntegerFrame(v)|))
  {
    IntToStringHasNoCr(v);
    ParseI64OfString(v);
    IntegerPieces(s, c.idx, IntToString(v));
    IntegerWith(s, c, IntToString(v));
  }

  /** A field that is not a signed decimal within `i64` fails with `Parse`. */
  lemma LexBadInteger(s: string, c: Cursor, t: string)
    requires ParseI64(t) == None
    requires forall k :: 0 <= k < |t| ==> t[k] != '\r'
    requires FramedAt(s, c.idx, ":" + t + "\r\n")
    ensures LexAt(s, c) == Lexed(Err(Parse), Cursor(c.idx + |t| + 3, c.pos + |t| + 3))
  {
    IntegerPieces(s, c.idx, t);
    IntegerWith(s, c, t);
  }

  /** After the `:`: text without '\r' that runs to the end of the input needs no CRLF. */
  lemma IntegerAtEndWith(s: string, c: Cursor, t: string)
    requires forall k :: 0 <= k < |t| ==> t[k] != '\r'
    requires |s| == c.idx + 1 + |t| && s[c.idx + 1..|s|] == t
    ensures var j := Cursor(|s|, c.pos + |t| + 1);
      IntegerAt(s, c) ==
        if ParseI64(t).Some? then Lexed(Ok(Integer(ParseI64(t).value)), j) else Lexed(Err(Parse), j)
  {
    assert TextEnd(s, c.idx + 1) == |s| by {
      TextOver(s, c.idx + 1, t);
    }
  }

  /** An integer that runs to the end of the input needs no CRLF. */
  lemma LexIntegerAtEnd(s: string, c: Cursor, t: string)
    requires ParseI64(t).Some?
    requires forall k :: 0 <= k < |t| ==> t[k] != '\r'
    requires c.idx <= |s| && s[c.idx..] == ":" + t
    ensures LexAt(s, c) == Lexed(Ok(Integer(ParseI64(t).value)), Cursor(|s|, c.pos + |t| + 1))
  {
    assert s[c.idx] == ':' && s[c.idx + 1..|s|] == t by {
      assert s[c.idx..][0] == s[c.idx];
      assert s[c.idx + 1..|s|] == s[c.idx..][1..];
    }
    IntegerAtEndWith(s, c, t);
  }

  /** The pieces of an array frame `*<d>\r\n<body>` at offset `i`. */
  lemma ArrayPieces(s: string, i: nat, d: string, body: string)
    requires FramedAt(s, i, "*" + d + "\r\n" + body)
    ensures s[i] == '*' && s[i + 1..i + 3 + |d|] == d + "\r\n"
    ensures s[i + 3 + |d|..i + 3 + |d| + |body|] == body
  {
    Peel(s, i, "*" + d + "\r\n", body);
    Peel(s, i, "*", d + "\r\n");
    CharAt(s, i, "*", 0);
  }

  /** The header of an array frame at `c`: a length field with value `n`, the items starting at `Cursor(k, q)`. */
  predicate ArrayHeaderAt(s: string, c: Cursor, n: nat, k: nat, q: nat) {
    c.idx + 1 <= k <= |s| && LengthAt(s, Cursor(c.idx + 1, c.pos + 1)) == Lexed(Ok(n), Cursor(k, q))
  }

  /** The loop, started at `d`, lexes `n` items to `items` and stops at index `e`. */
  predicate ItemsScan(s: string, d: Cursor, n: nat, items: seq<Token>, e: nat) {
    d.idx <= |s| && LexItemsAt(s, d, n).result == Ok(items) && LexItemsAt(s, d, n).cursor.idx == e
  }

  /** After the `*`: a length field with value `n`, then the `n` items the loop lexes. */
  lemma ArrayWith(s: string, c: Cursor, n: nat, k: nat, q: nat, items: seq<Token>, e: nat)
    requires c.idx < |s| && ArrayHeaderAt(s, c, n, k, q) && ItemsScan(s, Cursor(k, q), n, items, e)
    ensures ArrayAt(s, c).result == Ok(Array(items)) && ArrayAt(s, c).cursor.idx == e
  {
    var len := LengthAt(s, Cursor(c.idx + 1, c.pos + 1));
    assert len.result.Ok? && len.result.value == n && len.cursor == Cursor(k, q);
  }


  lemma ArrayHead(s: string, c: Cursor, n: nat, body: string)
    requires n <= UsizeMax
    requires FramedAt(s, c.idx, "*" + NatToString(n) + "\r\n" + body)
    ensures s[c.idx] == '*' && c.idx < |s|
    ensures ArrayHeaderAt(s, c, n, c.idx + |NatToString(n)| + 3, c.pos + |NatToString(n)| + 3)
  {
    ArrayPieces(s, c.idx, NatToString(n), body);
    LengthFieldOf(s, Cursor(c.idx + 1, c.pos + 1), n);
  }

  /** `lex` dispatches on the first character of a frame. */
  lemma LexAtCases(s: string, c: Cursor)
    requires c.idx < |s|
    ensures s[c.idx] == '$' ==> LexAt(s, c) == BulkAt(s, c)
    ensures s[c.idx] == '*' ==> LexAt(s, c) == ArrayAt(s, c)
    ensures s[c.idx] == ':' ==> LexAt(s, c) == IntegerAt(s, c)
  {
  }

  /** Every well-framed token is lexed back from its framing `e`, which it consumes exactly. */
  predicate Encodes(t: Token, e: string) {
    WellFramed(t) && e == EncodeToken(t)
  }

  lemma {:induction false} LexEncoded(t: Token, e: string, s: string, c: Cursor)
    requires Encodes(t, e)
    requires c.idx + |e| <= |s| && s[c.idx..c.idx + |e|] == e
    ensures LexAt(s, c).result == Ok(t)
    ensures LexAt(s, c).cursor.idx == c.idx + |e|
    decreases t, 2
  {
    match t
    case Identifier(p) =>
      LexBulk(s, c, p);
    case Integer(v) =>
      LexIntegerFrame(s, c, v);
    case Array(items) =>
      LexEncodedArray(items, EncodeTokens(items), s, c);
      LexAtCases(s, c);
    case _ =>
      IdentifyWord(t);
      LexBulk(s, c, Word(t));
  }

  predicate EncodesItems(ts: seq<Token>, e: string) {
    (forall k :: 0 <= k < |ts| ==> WellFramed(ts[k])) && e == EncodeTokens(ts)
  }

  lemma {:induction false} LexEncodedArray(items: seq<Token>, body: string, s: string, c: Cursor)
    requires |items| <= UsizeMax && EncodesItems(items, body)
    requires FramedAt(s, c.idx, "*" + NatToString(|items|) + "\r\n" + body)
    ensures s[c.idx] == '*'
    ensures ArrayAt(s, c).result == Ok(Array(items))
    ensures ArrayAt(s, c).cursor.idx == c.idx + |NatToString(|items|)| + 3 + |body|
    decreases items, 1
  {
    var d := Cursor(c.idx + |NatToString(|items|)| + 3, c.pos + |NatToString(|items|)| + 3);
    ArrayBody(s, c, |items|, body);
    LexEncodedItems(items, body, s, d);
    assert ItemsScan(s, d, |items|, items, d.idx + |body|);
    ArrayOfItems(s, c, |items|, body, items);
  }

  /** The body of an array frame sits right after its header. */
  lemma ArrayBody(s: string, c: Cursor, n: nat, body: string)
    requires FramedAt(s, c.idx, "*" + NatToString(n) + "\r\n" + body)
    ensures c.idx + |NatToString(n)| + 3 + |body| <= |s|
    ensures s[c.idx + |NatToString(n)| + 3..c.idx + |NatToString(n)| + 3 + |body|] == body
  {
    ArrayPieces(s, c.idx, NatToString(n), body);
  }

  /** An array frame whose body the loop reads as `items` lexes to the array of them. */
  lemma ArrayOfItems(s: string, c: Cursor, n: nat, body: string, items: seq<Token>)
    requires n <= UsizeMax
    requires FramedAt(s, c.idx, "*" + NatToString(n) + "\r\n" + body)
    requires ItemsScan(s, Cursor(c.idx + |NatToString(n)| + 3, c.pos + |NatToString(n)| + 3), n, items,
                       c.idx + |NatToString(n)| + 3 + |body|)
    ensures s[c.idx] == '*'
    ensures ArrayAt(s, c).result == Ok(Array(items))
    ensures ArrayAt(s, c).cursor.idx == c.idx + |NatToString(n)| + 3 + |body|
  {
    ArrayHead(s, c, n, body);
    ArrayWith(s, c, n, c.idx + |NatToString(n)| + 3, c.pos + |NatToString(n)| + 3, items, c.idx + |NatToString(n)| + 3 + |body|);
  }

  lemma {:induction false} LexEncodedItems(ts: seq<Token>, e: string, s: string, c: Cursor)
    requires EncodesItems(ts, e)
    requires c.idx + |e| <= |s| && s[c.idx..c.idx + |e|] == e
    ensures LexItemsAt(s, c, |ts|).result == Ok(ts)
    ensures LexItemsAt(s, c, |ts|).cursor.idx == c.idx + |e|
    decreases ts, 0
  {
    if ts != [] {
      var e0, e1 := EncodeToken(ts[0]), EncodeTokens(ts[1..]);
      Peel(s, c.idx, e0, e1);
      LexEncoded(ts[0], e0, s, c);
      var first := LexAt(s, c);
      LexEncodedItems(ts[1..], e1, s, first.cursor);
      assert [ts[0]] + ts[1..] == ts;
    }
  }

  /**
   * Round trip: lexing the framing of a well-framed token gives the token back,
   * and input after the frame is left unread.
   */
  lemma LexRoundTrip(t: Token, rest: string)
    requires WellFramed(t)
    ensures Lex(EncodeToken(t) + rest).result == Ok(t)
    ensures Lex(EncodeToken(t) + rest).cursor.idx == |EncodeToken(t)|
  {
    var s := EncodeToken(t) + rest;
    assert s[0..|EncodeToken(t)|] == EncodeToken(t);
    LexEncoded(t, EncodeToken(t), s, Cursor(0, 0));
  }

  /** Empty input is an unexpected end of input. */
  lemma LexEmpty()
    ensures Lex("") == Lexed(Err(UnexpectedEOF), Cursor(0, 0))
  {
  }

  /** A frame must start with `$`, `*` or `:`; anything else is a `Delimiter` error at `pos`. */
  lemma LexBadStart(s: string, c: Cursor)
    requires c.idx < |s| && s[c.idx] != '$' && s[c.idx] != '*' && s[c.idx] != ':'
    ensures LexAt(s, c) == Lexed(Err(Delimiter(c.pos)), c)
  {
  }

  /** A length field without a digit (`$abc\r\n`, `*\r\n`) fails with `Parse`. */
  lemma LexLengthWithoutDigits(s: string, c: Cursor)
    requires c.idx < |s| && (s[c.idx] == '$' || s[c.idx] == '*') && (c.idx + 1 == |s| || !IsDigit(s[c.idx + 1]))
    ensures LexAt(s, c) == Lexed(Err(Parse), Cursor(c.idx + 1, c.pos + 1))
  {
  }

  /** After a run of digits that parses, a length field is decided by the CRLF that follows. */
  lemma DigitsThenCrlf(s: string, c: Cursor, d: string)
    requires AllDigits(d) && ParseUsize(d).Some? && FramedAt(s, c.idx, d)
    requires c.idx + |d| < |s| ==> !IsDigit(s[c.idx + |d|])
    ensures CrlfAt(s, Cursor(c.idx + |d|, c.pos + |d|)).result.Err? ==>
      LengthAt(s, c) == Lexed(Err(CrlfAt(s, Cursor(c.idx + |d|, c.pos + |d|)).result.error),
                              CrlfAt(s, Cursor(c.idx + |d|, c.pos + |d|)).cursor)
  {
    ParseUsizeOfDigits(d);
    assert DigitsEnd(s, c.idx) == c.idx + |d| by {
      DigitsOver(s, c.idx, d);
    }
  }

  /** Digits that parse, then `\r` and a character other than `\n`: `Expected('\n', x, pos)`. */
  lemma LengthFieldHalfCrlf(s: string, c: Cursor, d: string, x: char)
    requires AllDigits(d) && ParseUsize(d).Some? && x != '\n'
    requires FramedAt(s, c.idx, d + "\r" + [x])
    ensures LengthAt(s, c) == Lexed(Err(Expected('\n', x, c.pos + |d| + 1)), Cursor(c.idx + |d| + 1, c.pos + |d| + 1))
  {
    var j := c.idx + |d|;
    Peel(s, c.idx, d, "\r" + [x]);
    CharAt(s, j, "\r" + [x], 0);
    CharAt(s, j, "\r" + [x], 1);
    DigitsThenCrlf(s, c, d);
  }

  /** Digits that parse, then a character that is neither a digit nor `\r`: `Expected('\r', x, pos)`. */
  lemma LengthFieldNoCrlf(s: string, c: Cursor, d: string, x: char)
    requires AllDigits(d) && ParseUsize(d).Some? && x != '\r' && !IsDigit(x)
    requires FramedAt(s, c.idx, d + [x])
    ensures LengthAt(s, c) == Lexed(Err(Expected('\r', x, c.pos + |d|)), Cursor(c.idx + |d|, c.pos + |d|))
  {
    var j := c.idx + |d|;
    Peel(s, c.idx, d, [x]);
    CharAt(s, j, [x], 0);
    DigitsThenCrlf(s, c, d);
  }

  /** Digits that parse and then the end of the input: `UnexpectedEOF`. */
  lemma LengthFieldAtEnd(s: string, c: Cursor, d: string)
    requires AllDigits(d) && ParseUsize(d).Some?
    requires FramedAt(s, c.idx, d) && c.idx + |d| == |s|
    ensures LengthAt(s, c) == Lexed(Err(UnexpectedEOF), Cursor(|s|, c.pos + |d|))
  {
    DigitsThenCrlf(s, c, d);
  }

  /** Digits that parse, then `\r` and the end of the input: `UnexpectedEOF`. */
  lemma LengthFieldCrAtEnd(s: string, c: Cursor, d: string)
    requires AllDigits(d) && ParseUsize(d).Some?
    requires FramedAt(s, c.idx, d + "\r") && c.idx + |d| + 1 == |s|
    ensures LengthAt(s, c) == Lexed(Err(UnexpectedEOF), Cursor(|s|, c.pos + |d| + 1))
  {
    var j := c.idx + |d|;
    Peel(s, c.idx, d, "\r");
    CharAt(s, j, "\r", 0);
    DigitsThenCrlf(s, c, d);
  }

  /** A `$` or `*` whose length field fails ends `lex` with that error, where the field stopped. */
  lemma LengthErrorEndsLex(s: string, c: Cursor)
    requires c.idx < |s| && (s[c.idx] == '$' || s[c.idx] == '*')
    requires LengthAt(s, Cursor(c.idx + 1, c.pos + 1)).result.Err?
    ensures LexAt(s, c) == Lexed(Err(LengthAt(s, Cursor(c.idx + 1, c.pos + 1)).result.error),
                                 LengthAt(s, Cursor(c.idx + 1, c.pos + 1)).cursor)
  {
    LexAtCases(s, c);
    var len := LengthAt(s, Cursor(c.idx + 1, c.pos + 1));
    if s[c.idx] == '$' {
      assert BulkAt(s, c) == Lexed(Err(len.result.error), len.cursor);
    } else {
      assert ArrayAt(s, c) == Lexed(Err(len.result.error), len.cursor);
    }
  }

  /**
   * A `$` or `*` whose length field is not closed by a CRLF fails with the
   * error `try_consume_crlf` gives. The four lemmas below cover the end of
   * the input right after the digits, a character other than `\r` there,
   * the end of the input after the `\r`, and a character other than `\n`
   * after the `\r`.
   */
  lemma LexLengthAtEnd(s: string, c: Cursor, d: string)
    requires c.idx < |s| && (s[c.idx] == '$' || s[c.idx] == '*')
    requires AllDigits(d) && ParseUsize(d).Some?
    requires FramedAt(s, c.idx + 1, d) && c.idx + 1 + |d| == |s|
    ensures LexAt(s, c) == Lexed(Err(UnexpectedEOF), Cursor(|s|, c.pos + 1 + |d|))
  {
    LengthFieldAtEnd(s, Cursor(c.idx + 1, c.pos + 1), d);
    LengthErrorEndsLex(s, c);
  }

  lemma LexLengthNoCr(s: string, c: Cursor, d: string, x: char)
    requires c.idx < |s| && (s[c.idx] == '$' || s[c.idx] == '*')
    requires AllDigits(d) && ParseUsize(d).Some? && x != '\r' && !IsDigit(x)
    requires FramedAt(s, c.idx + 1, d + [x])
    ensures LexAt(s, c) == Lexed(Err(Expected('\r', x, c.pos + 1 + |d|)), Cursor(c.idx + 1 + |d|, c.pos + 1 + |d|))
  {
    LengthFieldNoCrlf(s, Cursor(c.idx + 1, c.pos + 1), d, x);
    LengthErrorEndsLex(s, c);
  }

  lemma LexLengthCrAtEnd(s: string, c: Cursor, d: string)
    requires c.idx < |s| && (s[c.idx] == '$' || s[c.idx] == '*')
    requires AllDigits(d) && ParseUsize(d).Some?
    requires FramedAt(s, c.idx + 1, d + "\r") && c.idx + 2 + |d| == |s|
    ensures LexAt(s, c) == Lexed(Err(UnexpectedEOF), Cursor(|s|, c.pos + 2 + |d|))
  {
    LengthFieldCrAtEnd(s, Cursor(c.idx + 1, c.pos + 1), d);
    LengthErrorEndsLex(s, c);
  }

  lemma LexLengthHalfCrlf(s: string, c: Cursor, d: string, x: char)
    requires c.idx < |s| && (s[c.idx] == '$' || s[c.idx] == '*')
    requires AllDigits(d) && ParseUsize(d).Some? && x != '\n'
    requires FramedAt(s, c.idx + 1, d + "\r" + [x])
    ensures LexAt(s, c) == Lexed(Err(Expected('\n', x, c.pos + 2 + |d|)), Cursor(c.idx + 2 + |d|, c.pos + 2 + |d|))
  {
    LengthFieldHalfCrlf(s, Cursor(c.idx + 1, c.pos + 1), d, x);
    LengthErrorEndsLex(s, c);
  }

  /** `$3\r` followed by `x`: the `\n` is missing, at position 3. */
  lemma LexHalfCrlfExample()
    ensures Lex("$3\rx") == Lexed(Err(Expected('\n', 'x', 3)), Cursor(3, 3))
  {
    ParseUsizeOfDigits("3");
    assert "$3\rx"[1..4] == "3" + "\r" + ['x'];
    LexLengthHalfCrlf("$3\rx", Cursor(0, 0), "3", 'x');
  }
}
