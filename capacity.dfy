/**
 * The buffer the `*` branch of `lex` reserves (src/lexer.rs:123).
 *
 * `Vec::with_capacity(len)` runs once the count and its CRLF have been read,
 * and before any item is. It panics ("capacity overflow") when `len` tokens
 * would take more than `isize::MAX` bytes. The count comes straight from the
 * request, so a request of a few bytes can ask for it. `ArrayAtAsWritten`
 * keeps that panic as an outcome of its own. `Lexing.ArrayAt`, which the rest
 * of the model uses, has no panic: a count the input cannot hold ends in a
 * lexer error.
 */
module Capacity {
  import opened Wrappers
  import opened Decimal
  import opened Lexing
  import Framing

  /** `isize::MAX` on a 64-bit target: no allocation may ask for more bytes. */
  const IsizeMax: int := 0x7FFF_FFFF_FFFF_FFFF

  /** What the `*` branch does as written: it panics, or it returns a token or an error. */
  datatype Outcome = Panicked | Returned(lexed: Lexed<Token>)

  /** `Vec::<Token>::with_capacity(len)` panics: the buffer would exceed `isize::MAX` bytes. */
  predicate CapacityOverflows(len: nat, tokenBytes: nat) {
    len * tokenBytes > IsizeMax
  }

  /**
   * The `*` branch of `lex` as written, for tokens of `tokenBytes` bytes each:
   * a count that was read, and whose buffer overflows, panics before any item
   * is read.
   */
  function ArrayAtAsWritten(s: string, c: Cursor, tokenBytes: nat): (r: Outcome)
    requires c.idx < |s|
    ensures r.Returned? ==> r.lexed == ArrayAt(s, c)
  {
    var len := LengthAt(s, Cursor(c.idx + 1, c.pos + 1));
    if len.result.Ok? && CapacityOverflows(len.result.value, tokenBytes) then Panicked
    else Returned(ArrayAt(s, c))
  }

  /** The request `*<n>\r\n`: an array count and nothing else. */
  function CountOnly(n: nat): string {
    "*" + NatToString(n) + "\r\n"
  }

  /** Its count is read as `n`, and the cursor ends at the end of the input. */
  lemma CountOnlyLength(n: nat)
    requires n <= UsizeMax
    ensures LengthAt(CountOnly(n), Cursor(1, 1)) == Lexed(Ok(n), Cursor(|CountOnly(n)|, |CountOnly(n)|))
  {
    var s := CountOnly(n);
    var f := NatToString(n) + "\r\n";
    assert s[1..1 + |f|] == f;
    Framing.LengthFieldOf(s, Cursor(1, 1), n);
  }

  /**
   * As written, the request `*<usize::MAX>\r\n` (23 characters) panics,
   * whatever the size of a token.
   */
  lemma HugeCountPanics(tokenBytes: nat)
    requires tokenBytes >= 1
    ensures ArrayAtAsWritten(CountOnly(UsizeMax), Cursor(0, 0), tokenBytes) == Panicked
  {
    CountOnlyLength(UsizeMax);
    assert UsizeMax * tokenBytes >= UsizeMax;
  }

  /** In the model a count with no items after it, `usize::MAX` included, is an `UnexpectedEOF` error. */
  lemma CountOnlyFails(n: nat)
    requires 0 < n <= UsizeMax
    ensures LexAt(CountOnly(n), Cursor(0, 0)).result == Err(UnexpectedEOF)
  {
    CountOnlyLength(n);
    var s := CountOnly(n);
    assert s[0] == '*';
    var end := Cursor(|s|, |s|);
    assert LexAt(s, end).result == Err(UnexpectedEOF);
    assert LexItemsAt(s, end, n).result == Err(UnexpectedEOF);
  }

  /** Every item consumes input: `n` items that are read take at least `n` characters. */
  lemma {:induction false} ItemsConsumeInput(s: string, c: Cursor, n: nat)
    requires c.idx <= |s|
    ensures LexItemsAt(s, c, n).result.Ok? ==> LexItemsAt(s, c, n).cursor.idx >= c.idx + n
    decreases n
  {
    if n > 0 {
      var first := LexAt(s, c);
      if first.result.Ok? {
        ItemsConsumeInput(s, first.cursor, n - 1);
      }
    }
  }

  /**
   * In the model a count larger than the input left after it always ends in
   * an error: no such count reaches any allocation.
   */
  lemma CountBeyondInputFails(s: string, c: Cursor)
    requires c.idx < |s| && s[c.idx] == '*'
    requires LengthAt(s, Cursor(c.idx + 1, c.pos + 1)).result.Ok?
    requires LengthAt(s, Cursor(c.idx + 1, c.pos + 1)).cursor.idx
           + LengthAt(s, Cursor(c.idx + 1, c.pos + 1)).result.value > |s|
    ensures LexAt(s, c).result.Err?
  {
    var len := LengthAt(s, Cursor(c.idx + 1, c.pos + 1));
    ItemsConsumeInput(s, len.cursor, len.result.value);
  }
}
