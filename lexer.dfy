/**
 * The wire tokenizer of src/lexer.rs.
 *
 * The Rust lexer walks a peekable character iterator and keeps a separate
 * `pos` counter. The two drift apart: `consume` advances both, but the
 * payload of a bulk string is taken straight from the iterator, so `pos`
 * does not count it. The model keeps both: `idx` is how many characters the
 * iterator has yielded, `pos` is the source's counter, which is what the
 * error values report.
 *
 * The specification functions (`LexAt` and its helpers) thread a `Cursor`
 * through the input; the class `Lexer` is the imperative scanner, and each
 * of its methods is proved to compute exactly what its function says.
 */
module Lexing {
  import opened Wrappers
  import opened Decimal

  datatype Token =
    | Disconnect
    | Create
    | Read
    | Update
    | Delete
    | Subscribe
    | Array(items: seq<Token>)
    | Identifier(text: string)
    | Integer(value: i64)

  datatype Error =
    | Delimiter(at: nat)
    | UnexpectedEOF
    | Expected(expected: char, actual: char, at: nat)
    | Parse

  /** Where the scanner stands: characters yielded so far, and the `pos` counter. */
  datatype Cursor = Cursor(idx: nat, pos: nat)

  /** The outcome of one scanning step, with the cursor it leaves behind. */
  datatype Lexed<T> = Lexed(result: Result<T, Error>, cursor: Cursor)

  /** A cursor is within the input, and `pos` never runs ahead of the iterator. */
  predicate Within(s: string, c: Cursor) {
    c.pos <= c.idx <= |s|
  }

  /** From `c` to `d` the scanner only moves forward, and `pos` moves no more than `idx`. */
  predicate Forward(s: string, c: Cursor, d: Cursor) {
    c.idx <= d.idx <= |s| && c.pos <= d.pos && d.pos - c.pos <= d.idx - c.idx
  }

  /** The six reserved words and the keyword token each one becomes. */
  const Keywords: map<string, Token> := map[
    "DISCONNECT" := Disconnect, "CREATE" := Create, "READ" := Read,
    "UPDATE" := Update, "DELETE" := Delete, "SUB" := Subscribe]

  function Identify(s: string): (t: Token)
    ensures t.Identifier? || IsKeyword(t)
    ensures t.Identifier? ==> t.text == s
  {
    if s in Keywords then Keywords[s] else Identifier(s)
  }

  predicate IsReserved(s: string) {
    s in Keywords
  }

  predicate IsKeyword(t: Token) {
    t.Disconnect? || t.Create? || t.Read? || t.Update? || t.Delete? || t.Subscribe?
  }

  function PeekAt(s: string, c: Cursor): Result<char, Error>
    requires c.idx <= |s|
  {
    if c.idx < |s| then Ok(s[c.idx]) else Err(UnexpectedEOF)
  }

  function ConsumeAt(s: string, c: Cursor): Lexed<char>
    requires c.idx <= |s|
  {
    if c.idx < |s| then Lexed(Ok(s[c.idx]), Cursor(c.idx + 1, c.pos + 1))
    else Lexed(Err(UnexpectedEOF), c)
  }

  /** The end of the run of digits that starts at `i`. */
  function DigitsEnd(s: string, i: nat): (j: nat)
    requires i <= |s|
    ensures i <= j <= |s|
    decreases |s| - i
  {
    if i < |s| && IsDigit(s[i]) then DigitsEnd(s, i + 1) else i
  }

  lemma {:induction false} DigitsRun(s: string, i: nat)
    requires i <= |s|
    ensures AllDigits(s[i..DigitsEnd(s, i)])
    decreases |s| - i
  {
    if i < |s| && IsDigit(s[i]) {
      DigitsRun(s, i + 1);
      assert s[i..DigitsEnd(s, i)] == [s[i]] + s[i + 1..DigitsEnd(s, i + 1)];
    }
  }

  /** The end of the run of characters other than '\r' that starts at `i`. */
  function TextEnd(s: string, i: nat): (j: nat)
    requires i <= |s|
    ensures i <= j <= |s|
    decreases |s| - i
  {
    if i < |s| && s[i] != '\r' then TextEnd(s, i + 1) else i
  }

  /** `consume_while(|c| c.is_numeric())`: never fails; takes the run of digits. */
  function DigitsAt(s: string, c: Cursor): (r: (string, Cursor))
    requires c.idx <= |s|
    ensures Forward(s, c, r.1)
    ensures AllDigits(r.0)
  {
    var j := DigitsEnd(s, c.idx);
    DigitsRun(s, c.idx);
    (s[c.idx..j], Cursor(j, c.pos + (j - c.idx)))
  }

  /** `try_consume_crlf`: exactly "\r\n", else the character found or end of input. */
  function CrlfAt(s: string, c: Cursor): (r: Lexed<()>)
    requires c.idx <= |s|
    ensures Forward(s, c, r.cursor)
    ensures r.result.Ok? <==> c.idx + 2 <= |s| && s[c.idx] == '\r' && s[c.idx + 1] == '\n'
    ensures r.result.Ok? ==> r.cursor == Cursor(c.idx + 2, c.pos + 2)
    ensures c.idx == |s| ==> r.result == Err(UnexpectedEOF)
    ensures c.idx < |s| && s[c.idx] != '\r' ==> r.result == Err(Expected('\r', s[c.idx], c.pos))
    ensures c.idx + 1 == |s| && s[c.idx] == '\r' ==> r.result == Err(UnexpectedEOF)
    ensures c.idx + 1 < |s| && s[c.idx] == '\r' && s[c.idx + 1] != '\n' ==>
      r.result == Err(Expected('\n', s[c.idx + 1], c.pos + 1))
  {
    if c.idx < |s| && s[c.idx] == '\r' then
      var c1 := Cursor(c.idx + 1, c.pos + 1);
      if c1.idx < |s| then
        if s[c1.idx] == '\n' then Lexed(Ok(()), Cursor(c1.idx + 1, c1.pos + 1))
        else Lexed(Err(Expected('\n', s[c1.idx], c1.pos)), c1)
      else Lexed(Err(UnexpectedEOF), c1)
    else if c.idx < |s| then Lexed(Err(Expected('\r', s[c.idx], c.pos)), c)
    else Lexed(Err(UnexpectedEOF), c)
  }

  /**
   * `consume_until_crlf`: everything up to the first '\r', which must start a
   * CRLF; input that ends first is accepted without one.
   */
  function UntilCrlfAt(s: string, c: Cursor): (r: Lexed<string>)
    requires c.idx <= |s|
    ensures Forward(s, c, r.cursor)
  {
    var j := TextEnd(s, c.idx);
    var mid := Cursor(j, c.pos + (j - c.idx));
    if j == |s| then Lexed(Ok(s[c.idx..j]), mid)
    else
      var cr := CrlfAt(s, mid);
      if cr.result.Ok? then Lexed(Ok(s[c.idx..j]), cr.cursor)
      else Lexed(Err(cr.result.error), cr.cursor)
  }

  /**
   * The `<len>\r\n` after a `$` or `*`: a run of digits parsed as `usize`, then
   * CRLF. On a run of digits `parse::<usize>()` fails exactly when the run is
   * empty or too large (`Decimal.ParseUsizeOfDigits`), which is what is written here.
   */
  function LengthAt(s: string, c: Cursor): (r: Lexed<nat>)
    requires c.idx <= |s|
    ensures Forward(s, c, r.cursor)
    ensures r.result.Ok? ==> r.cursor.idx > c.idx
  {
    var (digits, c1) := DigitsAt(s, c);
    if digits == [] || DigitsValue(digits) > UsizeMax then Lexed(Err(Parse), c1)
    else
      var cr := CrlfAt(s, c1);
      if cr.result.Err? then Lexed(Err(cr.result.error), cr.cursor)
      else Lexed(Ok(DigitsValue(digits)), cr.cursor)
  }

  /** `take(len)` on the iterator: up to `n` characters, without touching `pos`. */
  function TakeAt(s: string, c: Cursor, n: nat): (r: (string, Cursor))
    requires c.idx <= |s|
    ensures Forward(s, c, r.1)
  {
    var k := if c.idx + n <= |s| then c.idx + n else |s|;
    (s[c.idx..k], Cursor(k, c.pos))
  }

  /** `lex`: one token starting at the cursor. */
  function LexAt(s: string, c: Cursor): (r: Lexed<Token>)
    requires c.idx <= |s|
    ensures Forward(s, c, r.cursor)
    ensures r.result.Ok? ==> r.cursor.idx > c.idx
    decreases |s| - c.idx, 2
  {
    if c.idx == |s| then Lexed(Err(UnexpectedEOF), c)
    else if s[c.idx] == '$' then BulkAt(s, c)
    else if s[c.idx] == '*' then ArrayAt(s, c)
    else if s[c.idx] == ':' then IntegerAt(s, c)
    else Lexed(Err(Delimiter(c.pos)), c)
  }

  /** The `$` branch of `lex` (lexer.rs:108-117). */
  function BulkAt(s: string, c: Cursor): (r: Lexed<Token>)
    requires c.idx < |s|
    ensures Forward(s, c, r.cursor)
    ensures r.result.Ok? ==> r.cursor.idx > c.idx
  {
    var len := LengthAt(s, Cursor(c.idx + 1, c.pos + 1));
    if len.result.Err? then Lexed(Err(len.result.error), len.cursor)
    else
      var (payload, c2) := TakeAt(s, len.cursor, len.result.value);
      var cr := CrlfAt(s, c2);
      if cr.result.Err? then Lexed(Err(cr.result.error), cr.cursor)
      else Lexed(Ok(Identify(payload)), cr.cursor)
  }

  /** The `*` branch of `lex` (lexer.rs:118-128). */
  function ArrayAt(s: string, c: Cursor): (r: Lexed<Token>)
    requires c.idx < |s|
    ensures Forward(s, c, r.cursor)
    ensures r.result.Ok? ==> r.cursor.idx > c.idx
    decreases |s| - c.idx, 1
  {
    var len := LengthAt(s, Cursor(c.idx + 1, c.pos + 1));
    if len.result.Err? then Lexed(Err(len.result.error), len.cursor)
    else Enclose(LexItemsAt(s, len.cursor, len.result.value))
  }

  /** The array token around the items a scan found, or its error. */
  function Enclose(items: Lexed<seq<Token>>): Lexed<Token> {
    if items.result.Ok? then Lexed(Ok(Array(items.result.value)), items.cursor)
    else Lexed(Err(items.result.error), items.cursor)
  }

  /** The `:` branch of `lex` (lexer.rs:129-134). */
  function IntegerAt(s: string, c: Cursor): (r: Lexed<Token>)
    requires c.idx < |s|
    ensures Forward(s, c, r.cursor)
    ensures r.result.Ok? ==> r.cursor.idx > c.idx
  {
    var text := UntilCrlfAt(s, Cursor(c.idx + 1, c.pos + 1));
    if text.result.Err? then Lexed(Err(text.result.error), text.cursor)
    else
      var num := ParseI64(text.result.value);
      if num.None? then Lexed(Err(Parse), text.cursor)
      else Lexed(Ok(Integer(num.value)), text.cursor)
  }

  /** The loop of `lex` for an array: `n` tokens one after the other. */
  function LexItemsAt(s: string, c: Cursor, n: nat): (r: Lexed<seq<Token>>)
    requires c.idx <= |s|
    ensures Forward(s, c, r.cursor)
    ensures r.result.Ok? ==> |r.result.value| == n
    decreases |s| - c.idx, 3, n
  {
    if n == 0 then Lexed(Ok([]), c)
    else
      var first := LexAt(s, c);
      if first.result.Err? then Lexed(Err(first.result.error), first.cursor)
      else
        var rest := LexItemsAt(s, first.cursor, n - 1);
        Prefix([first.result.value], rest)
  }

  /** Puts `items` in front of what a later scan found, or passes its error on. */
  function Prefix(items: seq<Token>, later: Lexed<seq<Token>>): Lexed<seq<Token>> {
    if later.result.Ok? then Lexed(Ok(items + later.result.value), later.cursor) else later
  }

  /** One step of the item loop: a token lexed at `c` goes in front of the rest. */
  lemma ItemsStepOk(s: string, c: Cursor, n: nat, t: Token, d: Cursor)
    requires c.idx <= |s| && n > 0
    requires LexAt(s, c) == Lexed(Ok(t), d)
    ensures LexItemsAt(s, c, n) == Prefix([t], LexItemsAt(s, d, n - 1))
  {
  }

  /** One step of the item loop: an error lexing at `c` ends the array with it. */
  lemma ItemsStepErr(s: string, c: Cursor, n: nat, e: Error, d: Cursor)
    requires c.idx <= |s| && n > 0
    requires LexAt(s, c) == Lexed(Err(e), d)
    ensures LexItemsAt(s, c, n) == Lexed(Err(e), d)
  {
  }

  lemma PrefixNothing(later: Lexed<seq<Token>>)
    ensures Prefix([], later) == later
  {
    if later.result.Ok? {
      assert [] + later.result.value == later.result.value;
    }
  }

  lemma PrefixTwice(a: seq<Token>, b: seq<Token>, later: Lexed<seq<Token>>)
    ensures Prefix(a, Prefix(b, later)) == Prefix(a + b, later)
  {
    if later.result.Ok? {
      assert a + (b + later.result.value) == (a + b) + later.result.value;
    }
  }

  /** The whole input, from the start, as `Lexer::from(s).lex()` reads it. */
  function Lex(s: string): Lexed<Token> {
    LexAt(s, Cursor(0, 0))
  }

  class Lexer {
    const input: string
    var idx: nat
    var pos: nat

    ghost predicate Valid()
      reads this
    {
      Within(input, Cursor(idx, pos))
    }

    ghost function Here(): Cursor
      reads this
    {
      Cursor(idx, pos)
    }

    constructor From(s: string)
      ensures input == s && idx == 0 && pos == 0 && Valid()
    {
      input := s;
      idx, pos := 0, 0;
    }

    method Peek() returns (r: Result<char, Error>)
      requires Valid()
      ensures r == PeekAt(input, Here())
    {
      if idx < |input| {
        r := Ok(input[idx]);
      } else {
        r := Err(UnexpectedEOF);
      }
    }

    method Consume() returns (r: Result<char, Error>)
      requires Valid()
      modifies this
      ensures Valid() && Lexed(r, Here()) == ConsumeAt(input, old(Here()))
    {
      if idx < |input| {
        r := Ok(input[idx]);
        idx, pos := idx + 1, pos + 1;
      } else {
        r := Err(UnexpectedEOF);
      }
    }

    /** `consume_while` as lines 110 and 120 call it, with `is_numeric` as the test. */
    method ConsumeDigits() returns (s: string)
      requires Valid()
      modifies this
      ensures Valid() && (s, Here()) == DigitsAt(input, old(Here()))
    {
      s := "";
      var p := Peek();
      while p.Ok?
        invariant Valid() && old(idx) <= idx && pos - old(pos) == idx - old(idx)
        invariant s == input[old(idx)..idx]
        invariant DigitsEnd(input, idx) == DigitsEnd(input, old(idx))
        invariant p == PeekAt(input, Here())
        decreases |input| - idx
      {
        if IsDigit(p.value) {
          var ch := Consume();
          s := s + [ch.value];
          p := Peek();
        } else {
          return;
        }
      }
    }

    method TryConsumeCrlf() returns (r: Result<(), Error>)
      requires Valid()
      modifies this
      ensures Valid() && Lexed(r, Here()) == CrlfAt(input, old(Here()))
    {
      var p := Peek();
      if p.Ok? && p.value == '\r' {
        var _ := Consume();
        var q := Peek();
        if q.Ok? && q.value == '\n' {
          var _ := Consume();
          r := Ok(());
        } else if q.Ok? {
          r := Err(Expected('\n', q.value, pos));
        } else {
          r := Err(q.error);
        }
      } else if p.Ok? {
        r := Err(Expected('\r', p.value, pos));
      } else {
        r := Err(p.error);
      }
    }

    method ConsumeUntilCrlf() returns (r: Result<string, Error>)
      requires Valid()
      modifies this
      ensures Valid() && Lexed(r, Here()) == UntilCrlfAt(input, old(Here()))
    {
      var s := "";
      var p := Peek();
      while p.Ok?
        invariant Valid() && old(idx) <= idx && pos - old(pos) == idx - old(idx)
        invariant s == input[old(idx)..idx]
        invariant TextEnd(input, idx) == TextEnd(input, old(idx))
        invariant p == PeekAt(input, Here())
        decreases |input| - idx
      {
        if p.value != '\r' {
          var ch := Consume();
          s := s + [ch.value];
          p := Peek();
        } else {
          var cr := TryConsumeCrlf();
          r := if cr.Ok? then Ok(s) else Err(cr.error);
          return;
        }
      }
      r := Ok(s);
    }

    /** The length field after `$` or `*`, as lines 110-112 and 120-122 read it. */
    method Length() returns (r: Result<nat, Error>)
      requires Valid()
      modifies this
      ensures Valid() && Lexed(r, Here()) == LengthAt(input, old(Here()))
    {
      var n := ConsumeDigits();
      var len := ParseUsize(n);
      ParseUsizeOfDigits(n);
      if len.None? {
        return Err(Parse);
      }
      var cr := TryConsumeCrlf();
      if cr.Err? {
        return Err(cr.error);
      }
      r := Ok(len.value);
    }

    method Lex() returns (r: Result<Token, Error>)
      requires Valid()
      modifies this
      ensures Valid() && Lexed(r, Here()) == LexAt(input, old(Here()))
      decreases |input| - idx, 2
    {
      var p := Peek();
      if p.Err? {
        return Err(UnexpectedEOF);
      }
      var c := p.value;
      if c == '$' {
        r := LexBulk();
      } else if c == '*' {
        r := LexArray();
      } else if c == ':' {
        r := LexInteger();
      } else {
        r := Err(Delimiter(pos));
      }
    }

    /** Lines 108-117: a bulk string, reclassified when it spells a keyword. */
    method LexBulk() returns (r: Result<Token, Error>)
      requires Valid() && idx < |input|
      modifies this
      ensures Valid() && Lexed(r, Here()) == BulkAt(input, old(Here()))
    {
      ghost var c0 := Here();
      var _ := Consume();
      ghost var c1 := Here();
      var len := Length();
      ghost var l := LengthAt(input, c1);
      assert l == Lexed(len, Here());
      if len.Err? {
        return Err(len.error);
      }
      var k := if idx + len.value <= |input| then idx + len.value else |input|;
      var payload := input[idx..k];
      assert (payload, Cursor(k, pos)) == TakeAt(input, l.cursor, l.result.value);
      idx := k;
      ghost var c2 := Here();
      var cr := TryConsumeCrlf();
      assert Lexed(cr, Here()) == CrlfAt(input, c2);
      if cr.Err? {
        return Err(cr.error);
      }
      r := Ok(Identify(payload));
    }

    /** Lines 118-128: an array of `len` tokens, each lexed by a recursive call. */
    method LexArray() returns (r: Result<Token, Error>)
      requires Valid() && idx < |input|
      modifies this
      ensures Valid() && Lexed(r, Here()) == ArrayAt(input, old(Here()))
      decreases |input| - idx, 1
    {
      ghost var c0 := Here();
      var _ := Consume();
      ghost var c1 := Here();
      var len := Length();
      assert LengthAt(input, c1) == Lexed(len, Here());
      if len.Err? {
        return Err(len.error);
      }
      ghost var start := Here();
      var items := LexTokens(len.value);
      assert LexItemsAt(input, start, len.value) == Lexed(items, Here());
      if items.Err? {
        return Err(items.error);
      }
      r := Ok(Array(items.value));
    }

    /** The `for` loop of lines 124-126: `n` tokens, each lexed by a recursive call. */
    method LexTokens(n: nat) returns (r: Result<seq<Token>, Error>)
      requires Valid()
      modifies this
      ensures Valid() && Lexed(r, Here()) == LexItemsAt(input, old(Here()), n)
      decreases |input| - idx, 4
    {
      ghost var all := LexItemsAt(input, Here(), n);
      var tokens: seq<Token> := [];
      PrefixNothing(all);
      for i := 0 to n
        invariant Valid() && old(idx) <= idx
        invariant Prefix(tokens, LexItemsAt(input, Here(), n - i)) == all
      {
        var t := LexItem(tokens, n - i, all);
        if t.Err? {
          return Err(t.error);
        }
        tokens := tokens + [t.value];
      }
      assert tokens + [] == tokens;
      r := Ok(tokens);
    }

    /**
     * One pass of the loop: the next token, lexed after the tokens `done`,
     * with `m` items still to come of the array `all`.
     */
    method LexItem(ghost done: seq<Token>, m: nat, ghost all: Lexed<seq<Token>>) returns (t: Result<Token, Error>)
      requires Valid() && m > 0
      requires Prefix(done, LexItemsAt(input, Here(), m)) == all
      modifies this
      ensures Valid() && old(idx) <= idx
      ensures t.Err? ==> Lexed(Err(t.error), Here()) == all
      ensures t.Ok? ==> Prefix(done + [t.value], LexItemsAt(input, Here(), m - 1)) == all
      decreases |input| - idx, 3
    {
      ghost var before := Here();
      t := Lex();
      if t.Err? {
        ItemsStepErr(input, before, m, t.error, Here());
      } else {
        ItemsStepOk(input, before, m, t.value, Here());
        PrefixTwice(done, [t.value], LexItemsAt(input, Here(), m - 1));
      }
    }

    /** Lines 129-134: a signed integer up to CRLF or the end of input. */
    method LexInteger() returns (r: Result<Token, Error>)
      requires Valid() && idx < |input|
      modifies this
      ensures Valid() && Lexed(r, Here()) == IntegerAt(input, old(Here()))
    {
      var _ := Consume();
      var n := ConsumeUntilCrlf();
      if n.Err? {
        return Err(n.error);
      }
      var num := ParseI64(n.value);
      if num.None? {
        return Err(Parse);
      }
      r := Ok(Integer(num.value));
    }
  }
}
