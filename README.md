# kv: a model of the wire codec, the database and the command loop

`kv` is an in-memory key/value server written in Rust. Clients talk to it over
TCP in a RESP-like framing:

- bulk strings: `$<len>\r\n<payload>\r\n`;
- arrays: `*<count>\r\n` followed by that many items;
- integers: `:<n>\r\n`.

A request is one array of tokens. The six reserved words `DISCONNECT`,
`CREATE`, `READ`, `UPDATE`, `DELETE` and `SUB` are keywords; any other bulk
string is an identifier. The parser turns the tokens into commands. The
database runs them against a map from keys to entries. Each entry holds a
value and an optional list of subscribers. A subscriber is the sending end of
another connection's outbound channel. `update` notifies every subscriber of
the new value. `subscribe` sends the current one.

This project models three pieces, in the form the source takes.

- **The lexer** (`src/lexer.rs`):
  - `lexer.dfy` has a class `Lexing.Lexer` whose cursor fields (`idx`, `pos`) its methods advance in place.
  - Each method is proved equal to a function on the input and the old cursor (`LexAt`, `BulkAt`, `ArrayAt`, ...).
  - `framing.dfy` writes the framing out as an encoder. It proves the lexer reads every well-framed token back. It also proves the error the source gives for these malformed shapes: empty input, a bad first character, a length field without digits, a length field not closed by a CRLF (each of the four ways it can be missing), a payload not followed by `\r`, and an integer line that is not an `i64`.
- **The parser** (`src/parser.rs`):
  - `parser.dfy` has the values, the commands, the value encoding (`Display for Value`, as written and corrected) and the token-to-value mapping.
  - A class `Parsing.Parser` drains its token queue. Its methods are proved equal to `ParseQueue`.
  - `parser_props.dfy` proves the round trips and the parser's error cases:
    - value to token to value;
    - the encoding of a value lexed back;
    - a batch of commands framed as a request and parsed back.
- **The database and the reading loop** (`src/main.rs`):
  - `store.dfy` has the classes `KvStore.Database` and `KvStore.Mailboxes`. The second holds the channels: what each has queued, and which receivers are gone.
  - Each database method is proved equal to a function of the old state. `store_props.dfy` proves what those functions promise.
  - `client.dfy` is the reading thread of a connection, over successive reads. `client_props.dfy` proves what a batch of commands does.
- **The unit tests** of the lexer and the parser are lemmas in `wire_cases.dfy`.

Modelling choices:

- Input is a `string` (a sequence of characters), which is what the lexer sees after `str::from_utf8`.
- A channel is named by a natural number (`SenderId`).
- A send fails exactly when that channel's receiver is gone.
- The reads of a connection are a parameter: a sequence of strings, where the empty string is a read of 0 bytes.
- `Lexer::lex` counts `pos` per character it consumes. It does not count the payload characters it takes with `take(len)`, and the model keeps that: after a bulk string of payload `p`, `pos` has moved `|p|` less than `idx`.

## Model

| member | source | states |
|---|---|---|
| Decimal.NatToStringValue | src/parser.rs:22-24 | The decimal digits written for a length or count read back as that number. |
| Decimal.ParseUsizeOfString | src/lexer.rs:111 | `parse::<usize>` gives back any length a `usize` holds, written in decimal. |
| Decimal.ParseUsizeOfDigits | src/lexer.rs:110-111 | On a run of digits, `parse::<usize>` succeeds exactly when the run is non-empty and its value fits a `usize`, and then gives that value. |
| Decimal.ParseI64OfString | src/lexer.rs:132 | `parse::<i64>` gives back every `i64` written by `Display`, including negative ones. |
| Decimal.IntToStringHasNoCr | src/parser.rs:23 | A written integer holds no `\r`, so `consume_until_crlf` stops at the frame's end. |
| Lexing.DigitsRun | src/lexer.rs:54-64 | What `consume_while(is_numeric)` collects is all digits. |
| Lexing.DigitsAt | src/lexer.rs:54-64 | The scan only moves forward, and returns only digits. |
| Lexing.CrlfAt | src/lexer.rs:78-91 | Succeeds exactly when the next two characters are `\r\n`, and then moves past both. Otherwise: `UnexpectedEOF` when the input ends before either character; `Expected('\r', found, pos)` when the first is not `\r`; `Expected('\n', found, pos + 1)` when the `\r` is followed by something else. |
| Lexing.UntilCrlfAt | src/lexer.rs:66-76 | The scan up to a CRLF only moves forward. |
| Lexing.LengthAt | src/lexer.rs:110-112 | A length field that is read moves the cursor forward. |
| Lexing.Identify | src/lexer.rs:93-103 | `identifier` gives a keyword token, or an identifier holding exactly the text it was given. |
| Lexing.LexAt | src/lexer.rs:105-139 | `lex` only moves forward, and a token read consumes at least one character. |
| Lexing.LexItemsAt | src/lexer.rs:123-126 | The item loop of an array gives exactly `n` tokens when it succeeds. |
| Lexing.ItemsStepOk | src/lexer.rs:124-126 | One item read puts its token in front of the rest of the array. |
| Lexing.ItemsStepErr | src/lexer.rs:125 | An item that fails ends the array with that error, at that cursor. |
| Lexing.Lexer.From | src/lexer.rs:32-37 | A lexer starts at the beginning of its input, with `pos` 0. |
| Lexing.Lexer.Peek | src/lexer.rs:39-44 | The next character, or `UnexpectedEOF`; nothing moves. |
| Lexing.Lexer.Consume | src/lexer.rs:46-52 | Takes one character and counts it in `pos`; at the end, `UnexpectedEOF`. |
| Lexing.Lexer.ConsumeDigits | src/lexer.rs:54-64 | The loop of `consume_while(is_numeric)` computes `DigitsAt`. |
| Lexing.Lexer.TryConsumeCrlf | src/lexer.rs:78-91 | Computes `CrlfAt`, including both `Expected` errors. |
| Lexing.Lexer.ConsumeUntilCrlf | src/lexer.rs:66-76 | The loop computes `UntilCrlfAt`; end of input before a `\r` returns what was read. |
| Lexing.Lexer.Length | src/lexer.rs:110-112 | Reading a length field computes `LengthAt`. |
| Lexing.Lexer.Lex | src/lexer.rs:105-139 | `lex` computes `LexAt` on the input and the old cursor. |
| Lexing.Lexer.LexBulk | src/lexer.rs:108-117 | The `$` branch computes `BulkAt`. |
| Lexing.Lexer.LexArray | src/lexer.rs:118-128 | The `*` branch computes `ArrayAt`. |
| Lexing.Lexer.LexTokens | src/lexer.rs:123-126 | The item loop computes `LexItemsAt`. |
| Lexing.Lexer.LexInteger | src/lexer.rs:129-134 | The `:` branch computes `IntegerAt`. |
| Framing.IdentifyClassifies | src/lexer.rs:93-103 | A bulk string becomes a keyword exactly when it is one of the six reserved words (case-sensitive); otherwise it is an identifier. |
| Framing.IdentifyWord | src/lexer.rs:93-103 | Every keyword token has a reserved word that identifies back to it. |
| Framing.LengthField | src/lexer.rs:110-112 | Digits that parse, followed by CRLF, are read as their value, with the cursor moved past the CRLF. |
| Framing.BulkDigits | src/lexer.rs:108-117 | A bulk string is read back whatever digits spell its length (leading zeros included). |
| Framing.LexBulk | src/lexer.rs:108-117 | `$<len>\r\n<p>\r\n` lexes to `p` classified, with `idx` past the frame and `pos` not counting the payload. |
| Framing.LexBulkBadTerminator | src/lexer.rs:112-114 | A payload not followed by `\r` fails with `Expected('\r', c, pos)`. |
| Framing.LexIntegerFrame | src/lexer.rs:129-134 | `:<i>\r\n` lexes to `Integer(i)` for every `i64`, with the cursor past the frame. |
| Framing.LexBadInteger | src/lexer.rs:131-132 | A line that is not an `i64` fails with `Parse`. |
| Framing.LexIntegerAtEnd | src/lexer.rs:66-76 | An integer at the very end of the input needs no CRLF. |
| Framing.LexEncoded | src/lexer.rs:105-139 | Every well-framed token lexes back from its own framing, whatever follows it. |
| Framing.LexEncodedArray | src/lexer.rs:118-128 | `*<n>\r\n` followed by `n` framed tokens lexes to the array of those tokens, in order. |
| Framing.LexEncodedItems | src/lexer.rs:123-126 | The framings of `n` tokens, back to back, are read as those `n` tokens, and the cursor ends after the last. |
| Framing.LexRoundTrip | src/lexer.rs:105-139 | Round trip: `Lex(EncodeToken(t) + rest)` is `Ok(t)`, ending exactly at the end of the frame. |
| Framing.LexEmpty | src/lexer.rs:138 | Empty input is `UnexpectedEOF`. |
| Framing.LexBadStart | src/lexer.rs:135 | Any other first character is `Delimiter(pos)`. |
| Framing.LexLengthWithoutDigits | src/lexer.rs:110-111 | `$` or `*` not followed by a digit, or at the end of the input, fails with `Parse`. |
| Framing.LengthFieldAtEnd | src/lexer.rs:110-112 | Digits that parse, then the end of the input: `UnexpectedEOF` after the digits. |
| Framing.LengthFieldNoCrlf | src/lexer.rs:110-112 | Digits that parse, then a character that is neither a digit nor `\r`: `Expected('\r', found, pos)` at that character. |
| Framing.LengthFieldCrAtEnd | src/lexer.rs:110-112 | Digits that parse, then `\r` and the end of the input: `UnexpectedEOF` after the `\r`. |
| Framing.LengthFieldHalfCrlf | src/lexer.rs:110-112 | Digits that parse, then `\r` and a character other than `\n`: `Expected('\n', found, pos)` at that character. |
| Framing.LexLengthAtEnd | src/lexer.rs:105-112 | A `$` or `*` whose digits end the input fails with `UnexpectedEOF`. |
| Framing.LexLengthNoCr | src/lexer.rs:105-112 | A `$` or `*` whose digits are followed by a character other than a digit or `\r` fails with `Expected('\r', found, pos)`. |
| Framing.LexLengthCrAtEnd | src/lexer.rs:105-112 | A `$` or `*` whose length field ends the input after its `\r` fails with `UnexpectedEOF`. |
| Framing.LexLengthHalfCrlf | src/lexer.rs:105-112 | A `$` or `*` whose length field has `\r` followed by a character other than `\n` fails with `Expected('\n', found, pos)`. |
| Framing.LexHalfCrlfExample | src/lexer.rs:78-91 | `$3\rx` fails with `Expected('\n', 'x', 3)`. |
| Parsing.Encode | src/parser.rs:19-33 | The corrected encoder of the first Findings row, which counts a text's length in characters. Its output is empty exactly for `Null`, and starts with `$`, `:` or `*` according to the variant. |
| Parsing.EncodeAsWritten | src/parser.rs:19-33 | `Display for Value` as written, which counts a text's length in bytes (`s.len()`). Its output is empty exactly for `Null`, and starts with `$`, `:` or `*` according to the variant. The server's answers and notices use it. |
| Parsing.Utf8Len | src/parser.rs:22 | `s.len()` (bytes in UTF-8) is never less than the number of characters. |
| Parsing.TokenToValue | src/parser.rs:56-68 | Identifiers become texts, integers become integers, arrays become arrays of the same length, and exactly the keywords become `Null`. |
| Parsing.TokensToValues | src/parser.rs:60-65 | Element-wise mapping keeps the length. |
| Parsing.ValueToToken | src/parser.rs:56-68 | The inverse of `token_to_value` on values without `Null` gives no keyword. |
| Parsing.SizeAllAppend | src/parser.rs:99-101 | The size of a queue adds over concatenation, which bounds the splice loop. |
| Parsing.StepAt | src/parser.rs:85-103 | Each step of `parse` that does not fail shrinks the queue's total size, so the loop ends even though arrays are spliced back in. |
| Parsing.JoinJoin | src/parser.rs:84-106 | Commands pushed in two steps are the commands pushed in one. |
| Parsing.Parser.From | src/parser.rs:46-54 | A parser is made exactly when the input lexes to an array; its queue holds that array's items. |
| Parsing.Parser.ExpectIdentifier | src/parser.rs:70-75 | Pops the front token; the key when it is an identifier, else `None`. |
| Parsing.Parser.PopFront | src/parser.rs:77-81 | Pops the front token as a value; `None` on an empty queue. |
| Parsing.Parser.Parse | src/parser.rs:83-107 | `parse` computes `ParseQueue` of the queue it started with, and empties the queue when it succeeds. |
| ParsingFacts.TokenToValueElements | src/parser.rs:60-65 | An array's values are its items' values, position by position. |
| ParsingFacts.ValueTokenValue | src/parser.rs:56-68 | Round trip: a value without `Null` maps to a token and back to itself. |
| ParsingFacts.ValuesTokensValues | src/parser.rs:60-65 | The same round trip, for a sequence of values. |
| ParsingFacts.TokenValueToken | src/parser.rs:56-68 | Round trip: a token without keywords maps to a value and back to itself. |
| ParsingFacts.TokensValuesTokens | src/parser.rs:60-65 | The same round trip, for a sequence of tokens. |
| ParsingFacts.EncodeIsFraming | src/parser.rs:19-33 | The encoding of a value is the lexer's framing of its token. |
| ParsingFacts.EncodeAllIsFraming | src/parser.rs:24-29 | The encoding of an array's elements is the framing of their tokens, back to back. |
| ParsingFacts.ValueRoundTrip | src/parser.rs:19-33 | Round trip: lexing the encoding of a value without `Null` or reserved words, then mapping the token to a value, gives the value back, and the lexer stops at the end of the encoding. |
| ParsingFacts.ReservedTextReadsAsNull | src/parser.rs:66 | A text that spells a reserved word is read back as a keyword, and so becomes `Null`. |
| ParsingFacts.Utf8LenCountsChars | src/parser.rs:22 | The byte length equals the character count exactly when the text is ASCII. |
| ParsingFacts.AsWrittenAgreesOnAscii | src/parser.rs:19-33 | On ASCII texts, the encoding as written (byte length) equals the character-count encoding. |
| ParsingFacts.AllAsWrittenAgreeOnAscii | src/parser.rs:24-29 | The same, for the elements of an array. |
| ParsingFacts.AsWrittenOvercounts | src/parser.rs:22 | Any non-ASCII text is given a length larger than its character count. |
| ParsingFacts.AsWrittenLosesText | src/parser.rs:22 | The encoding as written of `Text("é")` does not lex back: the lexer takes 2 characters and finds no CRLF. |
| ParsingFacts.CharCountKeepsText | src/parser.rs:22 | With the length counted in characters, `Text("é")` lexes back. |
| ParsingFacts.ParseSplicesArray | src/parser.rs:99-101 | An array at command position is appended to the back of the queue, not parsed in place. |
| ParsingFacts.ParseRejectsBareArgument | src/parser.rs:102 | An identifier or integer at command position makes `parse` fail. |
| ParsingFacts.ParseRejectsBadKey | src/parser.rs:88-98 | A keyword that takes a key, followed by no identifier, makes `parse` fail. |
| ParsingFacts.ParseRejectsMissingValue | src/parser.rs:88-96 | `CREATE` or `UPDATE` with a key but no value makes `parse` fail. |
| ParsingFacts.CommandTokens | src/parser.rs:85-98 | The tokens of a command start with its keyword. |
| ParsingFacts.ParseCommand | src/parser.rs:85-98 | The tokens of one command parse as that command, then the rest of the queue. |
| ParsingFacts.ParseCommands | src/parser.rs:83-107 | The tokens of a batch of commands parse as that batch, then the rest of the queue. |
| ParsingFacts.ParseFlatQueue | src/parser.rs:83-107 | The tokens of a batch parse to exactly that batch. |
| ParsingFacts.RequestRoundTrip | src/parser.rs:46-54 | Round trip: a batch framed as one array is found by `Parser::from` (whatever follows) and parsed back to itself. |
| Capacity.ArrayAtAsWritten | src/lexer.rs:118-128 | The `*` branch as written. When it does not panic, it gives what `Lexing.ArrayAt` gives. |
| Capacity.HugeCountPanics | src/lexer.rs:120-123 | As written, `*<usize::MAX>\r\n` panics in `Vec::with_capacity`, for any token size of at least one byte. |
| Capacity.CountOnlyFails | src/lexer.rs:118-128 | In the corrected branch, an array count with no items after it, `usize::MAX` included, is `UnexpectedEOF`. |
| Capacity.ItemsConsumeInput | src/lexer.rs:123-126 | `n` items that are read consume at least `n` characters. |
| Capacity.CountBeyondInputFails | src/lexer.rs:118-128 | In the corrected branch, a count larger than the input left after it always ends in an error. |
| WireCases.LexInt | src/lexer.rs:176-180 | `:-100346\r\n` lexes to `Integer(-100346)`. |
| WireCases.LexArray | src/lexer.rs:163-174 | The `lex_array` test: an identifier, `SUB` and an integer in one array. |
| WireCases.LexArrayNested | src/lexer.rs:146-161 | The `lex_array_nested` test: `CREATE`, a key and a nested array of two identifiers. |
| WireCases.ParseFail | src/parser.rs:131-135 | An integer alone is not a request: `Parser::from` gives `None`. |
| WireCases.ParseCmd | src/parser.rs:137-144 | `*2 SUB key` parses to `Subscribe("key")`. |
| WireCases.ParseArray | src/parser.rs:114-129 | The `parse_array` test: `CREATE key` with an array value of two texts. |
| KvStore.Repeat | src/main.rs:110-113 | `n` copies of a message. |
| KvStore.SendOp | src/main.rs:112 | A send succeeds exactly when the receiver is there, and then queues the message on that channel only. |
| KvStore.FirstClosed | src/main.rs:110-113 | The first subscriber whose receiver is gone, and every one before it reachable. |
| KvStore.Mailboxes.constructor | src/main.rs:167-181 | Channels start with nothing queued. |
| KvStore.Mailboxes.Send | src/main.rs:112 | `Sender::send` computes `SendOp` on the channels' state. |
| KvStore.Database.constructor | src/main.rs:41-46 | A new database has no keys. |
| KvStore.Database.Create | src/main.rs:84-95 | `create` computes `CreateOp`. |
| KvStore.Database.Read | src/main.rs:97-100 | `read` computes `ReadOp`. |
| KvStore.Database.Update | src/main.rs:102-122 | `update`, with its loop over the subscribers, computes `UpdateOp`. |
| KvStore.Database.Delete | src/main.rs:124-126 | `delete` computes `DeleteOp`. |
| KvStore.Database.Subscribe | src/main.rs:128-143 | `subscribe` computes `SubscribeOp`. |
| StoreFacts.BroadcastSucceeds | src/main.rs:110-113 | The loop of `update` succeeds exactly when every subscriber is reachable; it closes no channel. |
| StoreFacts.BroadcastInbox | src/main.rs:110-113 | Each channel gets the notice once per time it is listed before the first unreachable subscriber. |
| StoreFacts.BroadcastDelivers | src/main.rs:110-113 | The two together: when the loop succeeds, and what every channel gets. |
| StoreFacts.CreateStores | src/main.rs:84-95 | `create` returns the previous value, stores the new one with no subscribers, and leaves every other key alone. |
| StoreFacts.DeleteRemoves | src/main.rs:124-126 | `delete` returns the stored value and removes the key; nothing else changes. |
| StoreFacts.UpdateAbsent | src/main.rs:107-121 | `update` of an absent key returns `Ok(None)` and changes nothing; the key is not created. |
| StoreFacts.UpdateNotifies | src/main.rs:102-122 | `update` of a present key: notices go out in list order up to the first unreachable subscriber. It succeeds exactly when all are reachable. On success it swaps in the new value, keeps the list and returns the old value. On failure the value is unchanged. |
| StoreFacts.SubscribeAbsent | src/main.rs:128-143 | `subscribe` to an absent key returns 0 and changes nothing. |
| StoreFacts.SubscribeAppends | src/main.rs:128-143 | `subscribe` sends the current value to the subscriber alone, appends it to the list, and returns the new length (0 when the list is new). |
| StoreFacts.SubscribeKeepsValid | src/main.rs:134-139 | Subscriber lists stay non-empty. |
| StoreFacts.SubscribeNeverReturnsOne | src/main.rs:134-139 | The count `subscribe` returns is never 1: the first subscriber gets 0. |
| Dispatch.Connection.constructor | src/main.rs:152-167 | A connection holds its own channel id, the shared database and the channels. |
| Dispatch.Connection.Execute | src/main.rs:216-254 | One command computes `StepCommand`. |
| Dispatch.Connection.RunCommands | src/main.rs:215-255 | The loop over a batch computes `RunBatch`. |
| Dispatch.Connection.Handle | src/main.rs:199-258 | One read computes `HandleInput`: the input is parsed, then the batch runs. |
| Dispatch.Connection.Run | src/main.rs:186-258 | The reading loop computes `Serve` over successive reads. |
| DispatchFacts.RunAppend | src/main.rs:215-255 | Running two batches back to back is running the first, then the second only if the first completed. |
| DispatchFacts.DisconnectEndsBatch | src/main.rs:217-223 | Nothing after `DISCONNECT` in a batch runs. |
| DispatchFacts.StepKeepsClosed | src/main.rs:216-254 | No command changes the set of closed channels. The model fixes that set for the whole run (see Left out). |
| DispatchFacts.StepKeepsValid | src/main.rs:216-244 | Every command keeps subscriber lists non-empty. |
| DispatchFacts.RunKeepsInvariants | src/main.rs:215-255 | A batch keeps subscriber lists non-empty. It also keeps the model's fixed set of closed channels. |
| DispatchFacts.ServeKeepsInvariants | src/main.rs:186-258 | The whole reading loop keeps both of those. |
| DispatchFacts.ReadAnswers | src/main.rs:227-253 | `READ` sends the stored value, as `Display` writes it, on the client's own channel, and sends nothing for an absent key. The database and every other channel are unchanged. A closed channel stops the batch. |
| DispatchFacts.CreateAnswers | src/main.rs:225 | `CREATE` stores the value with no subscribers. It sends the value it replaced, as `Display` writes it, on the client's own channel, and nothing for a new key. A closed channel stops the batch. |
| DispatchFacts.DeleteAnswers | src/main.rs:226 | `DELETE` removes the key. It sends the value removed, as `Display` writes it, on the client's own channel, and nothing for an absent key. A closed channel stops the batch. |
| DispatchFacts.UpdateAbsentIsSilent | src/main.rs:228-239 | `UPDATE` of an absent key sends nothing and changes nothing. |
| DispatchFacts.UpdateAnswers | src/main.rs:228-253 | `UPDATE` with any subscriber list: each subscriber before the first unreachable one gets the notice, once per listing. When all were reached, the value is swapped in and the old value goes to the client's own channel after its notices. Otherwise the batch stops, the database unchanged and no answer sent. |
| DispatchFacts.UpdateFailureStops | src/main.rs:228-239 | An `UPDATE` whose notice fails stops the batch with the database unchanged and no answer, and no later command runs. |
| DispatchFacts.SubscribeIsSilent | src/main.rs:240-243 | `SUBSCRIBE` sends no answer. Its only message is the current value's notice on the client's own channel. |
| DispatchFacts.RunSingle | src/main.rs:215-255 | A batch of one command ends as that command does. |
| DispatchFacts.RunPair | src/main.rs:215-255 | A batch of two: the first, then the second if the first completed. |
| DispatchFacts.OwnUpdate | src/main.rs:228-253 | `UPDATE` by a key's only subscriber: its channel gets the notice, then the old value as `Display` writes it. |
| DispatchFacts.FirstSubscriber | src/main.rs:240-243 | The first `SUBSCRIBE` to a key makes the client its only subscriber and sends it the current value. |
| DispatchFacts.SubscriberHearsOwnUpdate | src/main.rs:215-255 | `SUB k` then `UPDATE k v` in one batch: the client's channel gets the old value's notice, then the new value's, then the old value as `Display` writes it. |
| DispatchFacts.HandleRequest | src/main.rs:199-255 | A batch framed as one request runs exactly as that batch. |
| DispatchFacts.HandleRejected | src/main.rs:199-258 | Input the parser rejects changes nothing and leaves the connection open. |

## Left out

- Sockets, threads and the shared `Mutex` (`src/main.rs`): a connection's reads are a sequence of strings, and the model runs one connection at a time. So it does not capture interleaving between connections, and it does not capture the poisoned-lock path (main.rs:205-213).
- The writer thread and the socket writes: a message counts as delivered once it is queued on its channel.
- Closing of receivers: the set of closed channels is a fixed part of the state. In the source a receiver goes away when its writer thread ends. After a `DISCONNECT`, for example, `shutdown` (main.rs:222) makes the writer's next `write_all` panic (main.rs:177). So the lemmas that keep the closed set unchanged are about the model.
- Read errors and the 1024-byte read buffer: each read is given whole, as a parameter.
- `shutdown` on `DISCONNECT`, and every `println!`: they are I/O. The model records only that the connection ends. The effect of `shutdown` on the writer is not modelled (see the line above).
- The greeting the server writes on connect, and the listener in `main`: these are process setup.
- `str::from_utf8` in `Parser::from`: input is modelled as characters. Invalid UTF-8, which the source maps to `None`, cannot be expressed.
- `char::is_numeric` in the length fields: modelled as the ASCII digits. A length that holds another Unicode numeral fails in both. The source fails with `Parse`, since `parse::<usize>` rejects the numeral. The model stops the scan at the numeral and so fails with `Parse` or with `Expected('\r', ...)`.
- `consume_while` with an arbitrary predicate: the source calls it only with `is_numeric`, so it is modelled as `Lexing.Lexer.ConsumeDigits`.
- `Entry::expiration` and `Database::next_tx_id`: always `None` and 0, and never read.
- The commented-out transaction code of `src/main.rs`.
- Lexing.ArrayAt and Lexing.Lexer.LexArray have no panic, because `Vec::with_capacity` (lexer.rs:123) is not part of them: a count the input cannot hold ends in a lexer error. The panic of the source is kept separately, for the top-level array only, by `Capacity.ArrayAtAsWritten` (Findings table). Three things are not modelled:
  - a nested array whose count overflows panics in the source too;
  - a count whose buffer fits under `isize::MAX` but not in memory (near 10^15 tokens) makes the allocation fail, which aborts the whole server;
  - the size of a `Token` is a parameter, not a fixed number of bytes.
- Lexing.Lexer.LexArray: the same gap as `Lexing.ArrayAt` above, since it computes `ArrayAt`.
- Dispatch.Connection.Run: the model ends when the given reads run out, while the source loops until a read of 0 bytes or a `DISCONNECT`.

Where the model follows the code rather than the protocol's written description:

- `Null` encodes as the empty string (parser.rs:30), not `*0\r\n`.
- `Parser::from` and `parse` return `Option` (parser.rs:46, 83), not an error with a reason. `src/main.rs` matches them as `Result`, which does not type-check against `src/parser.rs`. The model follows `src/parser.rs`.
- `r.encode()` in `src/main.rs` is read as `Display for Value`, the only encoding the source defines. Answers, and the notices of `update` and `subscribe` (main.rs:111, 132), use it as written (`Parsing.EncodeAsWritten`, text lengths in bytes). The corrected `Parsing.Encode` of the Findings table is the one the round-trip lemmas are about.
- An array at command position is appended to the back of the queue (parser.rs:99-101), not parsed in place.
- A failed send in `update` returns an error through `?` at the first unreachable subscriber. The reading loop then leaves the batch (main.rs:228-239). No later subscriber is notified, the value is not swapped, and no later command of the batch runs.

## Findings

| source | as written | input that shows it | evidently intended | confidence | as-written member | corrected member |
|---|---|---|---|---|---|---|
| src/parser.rs:22 | A text's length is written as `s.len()`, its UTF-8 byte count. But the lexer takes that many characters (lexer.rs:113). | `Text("é")` is written `$2\r\né\r\n`. The lexer takes `é\r` as the payload, then finds `\n` where `\r` should be. | The length counts what the lexer takes back, so that every text without reserved words round-trips. | not executed | ParsingFacts.AsWrittenLosesText (on Parsing.EncodeAsWritten) | ParsingFacts.CharCountKeepsText and ParsingFacts.ValueRoundTrip (on Parsing.Encode) |
| src/lexer.rs:123 | `Vec::with_capacity(len)` runs on the count from the request, before any item is read. It panics when `len` tokens exceed `isize::MAX` bytes, which ends the connection's reading thread. | The 23-character request `*18446744073709551615\r\n`, whose count is `usize::MAX`. | A count the input cannot hold is rejected as a lexer error, and the connection reads on. | not executed | Capacity.HugeCountPanics (on Capacity.ArrayAtAsWritten) | Capacity.CountOnlyFails and Capacity.CountBeyondInputFails (on Lexing.ArrayAt) |
