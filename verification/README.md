# fiber-mark lexer, modelled in Dafny

fiber-mark's lexer turns a markdown text into tokens: `Heading(level)` for a
run of `#`, `Breaks` for a run of at least three `-`, `Code` for a run of at
least three backticks, `EOL` for a line ending and `Text` for plain text. Each
token carries a half-open offset range into the input. This project models
that lexer as pure functions over `string` (`seq<char>`) and proves properties
about them.

- `tokens.dfy` (module `Tokens`): the token kinds, ranges, the `u8` level type
  and the fixed line ending `"\n"`. The kind datatype is the union of both
  design iterations in the source: the reader-based driver's `Breaks`,
  `Heading`, `Code`, `Text` and `EOL`, plus the buffer terminator's
  `CodeFence(level)` and `NewLine(Lf | CrLf)`.
- `next_while.dfy` (module `NextWhile`): `next_while_count`, the counter of
  leading elements that satisfy a predicate. The peekable iterator is a
  sequence. `PrefixCount` is the reference definition and `NextWhileCount`
  is the loop.
- `blocks.dfy` (module `Blocks`): the three run readers. The `Adaptor`
  parameter says how the run after the first marker is counted. `TakeWhile`
  is what the code does: it pulls and drops the first non-marker. `NextIf`
  leaves that character in the source.
- `buffer.dfy` (module `Buffer`): `handle_buffer` as a pure function of the
  buffer category, the buffer length and `cur_position`. `Qualifies` and
  `Width` give the minimum-length table and the range width per category.
  Lemmas tie this design iteration to the readers.
- `driver.dfy` (module `Driver`): the lexer state (`raw`, the source
  position `next`, `cur_position`, `plain_text_range` and `buffer`) and every
  helper of `mod.rs`. `next_token` is the recursive `NextToken`. `Valid` is
  the state invariant. `Denotes` says what a token's range covers. `Tokenize`
  collects the whole stream the way the `Iterator` impl does.
- `scenarios.dfy` (module `Scenarios`): whole-stream lemmas and concrete
  inputs. These include the inputs behind the two findings below.

`Revision` selects the driver as written (`AsWritten`: `take_while` readers,
and a loop that keeps going once the source is empty) or the corrected driver
(`Corrected`: non-consuming readers, and a loop that stops when the source is
empty). `Tokenize` uses the corrected driver.

Behaviour of the code that the model keeps:
- `\r` is never a line ending, because `LINE_ENDING` is `"\n"`. Once a `\r`
  enters the buffer, the buffer stays non-empty, and every later plain
  character is appended to it instead of becoming text
  (`CarriageReturnStallsBuffer`).
- A run of one or two `-` or backticks makes no token of its own: the reader
  returns `None`. If plain text is open around the run, the later `Text`
  spans it, as it does a heading (`TextSpansHeading`). As written, the reader on
  `"--"` also drains the source while `cur_position` stays 0, so the first
  `next_token` never returns; the corrected driver yields no token
  (`ShortBreakDropped`).
- The readers do not close the open plain-text range. A `Text` token can
  therefore span a heading (`TextSpansHeading`).
- The loop guard `cur_position + 1 < len` never admits a one-character input.
  It also leaves a final `\n` unflushed.

## Model

| member | source | states |
|---|---|---|
| NextWhile.PrefixCount | src/utils/next_while.rs:15-23 | the count is at most the length, every counted element satisfies the predicate, and the element right after them (if any) fails it: the longest satisfying prefix |
| NextWhile.NextWhileCount | src/utils/next_while.rs:15-23 | the loop consumes exactly the longest satisfying prefix: the count equals `PrefixCount`, the remainder is the input after `count` elements, and its first element (if any) fails the predicate, so it stays unconsumed |
| NextWhile.NextWhileIdempotent | src/utils/next_while.rs:34-40 | a second count with the same predicate on what the first left over is 0 |
| NextWhile.PrefixCountZero | src/utils/next_while.rs:16-22 | the count is 0 exactly when the iterator is empty or its first element fails |
| NextWhile.BasicsExample | src/utils/next_while.rs:30-41 | `[1,1,2,3]` with `== 1` counts 2 and then 0; `"### Hello World"` with `== '#'` counts 3 and then 0 |
| Blocks.RunLength | src/lexer/blocks.rs:41 | `1 + take_while(..).count()` is the length of the maximal marker run starting at the cursor |
| Blocks.ReadBreaks | src/lexer/blocks.rs:5-19 | a token exists iff the two characters after the cursor are dashes (run of at least 3); it is `Breaks` on `cur..cur+run` over a maximal dash run; the source ends up after the run (plus a dropped terminator with `take_while`) |
| Blocks.ReadCodeBlock | src/lexer/blocks.rs:21-35 | a token exists iff the two characters after the cursor are backticks; it is `Code` on `cur..cur+run` over a maximal backtick run; same source position as above |
| Blocks.ReadHeader | src/lexer/blocks.rs:37-50 | always a token; its range starts at the cursor and ends where the `#` run ends; the stored level is the range length mod 256 |
| Blocks.HeadingLevelTruncated | src/lexer/blocks.rs:41-46 | the stored level equals the range length iff the run is shorter than 256 |
| Blocks.HeadingOf256Marks | src/lexer/blocks.rs:41-46 | 256 `#` give `Heading(0)` on `0..256` |
| Blocks.TerminatorHandling | src/lexer/blocks.rs:9 | for each reader, counting with `take_while` and with `next_if` gives the same token; when the run stops before the end, `take_while` leaves the source exactly one further on, having skipped a character that is not the marker; at the end both leave the source empty |
| Buffer.HandleBuffer | src/lexer/buffer.rs:5-40 | no category gives no token; a token exists iff the category passes the minimum-length table (breaks and code fences need a buffer of at least 3; code and EOL never qualify); the token keeps the category, ends at `cur_position`, and is as wide as the category's width; the precondition excludes the `usize` underflow |
| Buffer.EnsureBufMinimumLen | src/lexer/buffer.rs:42-44 | true exactly when the buffer is not shorter than the asked length |
| Buffer.NewLineWidths | src/lexer/buffer.rs:30-34 | a `\n` newline is one offset wide, a `\r\n` newline two |
| Buffer.CodeFenceGatedOnBuffer | src/lexer/buffer.rs:18-24 | the fence gate tests the buffer length, not the level |
| Buffer.BufferedHeadingMatchesReader | src/lexer/buffer.rs:8-12 | terminating a buffered heading run right after it gives the token `read_header` builds, for runs below 256 |
| Buffer.BufferedBreaksMatchesReader | src/lexer/buffer.rs:13-17 | terminating a buffered dash run right after it gives the token `read_breaks` builds, or none when both give none |
| Buffer.BufferedFenceMatchesReader | src/lexer/buffer.rs:18-24 | a buffered backtick run makes a fence exactly when `read_code_block` makes a code token, over the same range |
| Driver.New | src/lexer/mod.rs:25-33 | the fresh state satisfies the invariant: nothing consumed, position 0, no plain text, empty buffer |
| Driver.IsLast | src/lexer/mod.rs:175-177 | true exactly when the cursor is on the last offset of the input |
| Driver.LastOffsetEndsStream | src/lexer/mod.rs:39 | once `is_last` holds, `next_token` yields nothing and changes nothing |
| Driver.TextAtEndIsLast | src/lexer/mod.rs:89-118 | a `Text` closed because it reached the input's end leaves the cursor on the last offset (`is_last`), and `next_idx` is then the token's end |
| Driver.NextIdx | src/lexer/mod.rs:174-187 | gives a value iff the cursor is on the last offset, and the value is the input length |
| Driver.FlushBuffer | src/lexer/mod.rs:70-87 | emits iff the buffer is exactly the line ending: an `EOL` on `cur..cur+1`, with the buffer emptied; otherwise the state is unchanged; in a valid state the `EOL` covers a `\n` |
| Driver.HandledSpecialChar | src/lexer/mod.rs:66-68 | the plain-text range is dropped and nothing else changes; the invariant is kept |
| Driver.ClearBuffer | src/lexer/mod.rs:148-150 | the buffer is empty and nothing else changes; the invariant is kept |
| Driver.ContinuePlainText | src/lexer/mod.rs:152-160 | an open range keeps its start and now ends at the cursor; an absent range stays absent; nothing else changes |
| Driver.RecordPlainText | src/lexer/mod.rs:162-172 | the range now ends one past the cursor and starts where it did, or at the cursor if there was none; nothing else changes |
| Driver.Accumulate | src/lexer/mod.rs:124-138 | `\r`/`\n` are always appended (closing plain text at the cursor when the buffer was empty); other characters are appended only to a non-empty buffer, and otherwise extend the plain-text range |
| Driver.RecordBuffer | src/lexer/mod.rs:120-146 | the closure sees the accumulated buffer and range; if it returns a token, that token is returned and the plain-text range is dropped, otherwise the accumulated state stands |
| Driver.EmitPlainText | src/lexer/mod.rs:90-117 | the closure of `record_plain_char` returns a token iff a range is open and either the buffer is exactly the line ending or the range ends at the input length; the token is `Text` over that range |
| Driver.RecordPlainChar | src/lexer/mod.rs:89-118 | emits a `Text` token with the plain-text range iff a range exists and either the buffer is exactly the line ending or the range reaches the input length; the range is then dropped |
| Driver.ReadMarker | src/lexer/mod.rs:48-54 | dispatching on the marker at `idx`: `#` always gives a `Heading`; `-` gives `Breaks` and a backtick gives `Code` exactly when the next two characters are the same marker; the token starts at `idx` and covers a maximal run of that marker; the source ends up after the run (and, with `take_while`, after the character that ended it) |
| Driver.RecordPlainCharValid | src/lexer/mod.rs:56 | recording a plain character keeps the state invariant, and its `Text` token lies inside the input |
| Driver.Consume | src/lexer/mod.rs:44-58 | pulling one character moves the cursor to it and the source past it, keeps the invariant, and any token made covers characters of its kind |
| Driver.Iterate | src/lexer/mod.rs:40-60 | one pass through the loop body keeps the invariant; a token it returns is sound and marks progress; without a token, the source moved on, or it was already empty and nothing changed |
| Driver.NextToken | src/lexer/mod.rs:35-64 | returns no token and changes nothing when `cur_position + 1 >= len`; each emitted token is sound and strictly advances the state; a non-returning loop happens only as written, and then in a state its body leaves unchanged while the guard holds; the stream ends only when the guard fails or, corrected, when the source is empty |
| Driver.NextTokenTrace | src/lexer/mod.rs:35-64 | the result is where the loop really goes from the given state: the end of the stream (or the spinning state) is reached by passes that emit nothing while the guard holds, and an emitted token is what one pass yields after such silent passes |
| Driver.Drain | src/lexer/iterator.rs:6-8 | every token of the stream covers characters of its kind inside the input; the stream is empty exactly when the first call reports the end, and otherwise starts with the token that call emits |
| Driver.Tokenize | src/lexer/iterator.rs:3-9 | the collected stream of an input consists only of tokens that lie inside it and cover characters of their kind; it is empty exactly when the first `next_token` reports the end, and otherwise starts with the token that call emits |
| Scenarios.PlainRunContinues | src/lexer/mod.rs:162-172 | within plain input, the loop extends one open range until it reaches the input's end, then emits it as `Text` |
| Scenarios.PlainInputIsOneText | src/lexer/mod.rs:39-63 | plain input of length at least 2 is exactly one `Text` token over all of it, under both revisions; shorter input yields nothing |
| Scenarios.TerminatorDroppedAsWritten | src/lexer/blocks.rs:41 | as written, `"### abc"` gives `Heading(3)` on `0..3`, then `Text` on `4..7`, then the end of the stream, so offset 3 is in no token |
| Scenarios.HeadingThenTextCorrected | src/lexer/blocks.rs:37-50 | corrected, `"### abc"` gives `Heading(3)` on `0..3` and `Text` on `3..7` |
| Scenarios.SpinsAfterTrailingBreakAsWritten | src/lexer/mod.rs:39-61 | as written, `"---"` yields `Breaks` on `0..3`, and then the next call never returns |
| Scenarios.TrailingBreakCorrected | src/lexer/mod.rs:39-61 | corrected, `"---"` is one `Breaks` token on `0..3` and then the end of the stream |
| Scenarios.ShortBreakDropped | src/lexer/blocks.rs:11-12 | as written, the first `next_token` on `"--"` never returns; with the corrected driver `"--"` makes no token at all |
| Scenarios.UnixNewlineExample | src/lexer/mod.rs:124-145 | `"a\nb"` is `Text 0..1`, `EOL 1..2`, `Text 2..3` |
| Scenarios.CarriageReturnStallsBuffer | src/lexer/mod.rs:124-138 | `"a\r\nb"` yields no token: the `\r` keeps the buffer from ever matching the line ending |
| Scenarios.TextSpansHeading | src/lexer/mod.rs:48-54 | `"ab#cd"` is `Heading(1) 2..3` followed by one `Text 0..5` that spans the heading |

## Findings

| source | as written | input that shows it | evidently intended | confidence | as-written member | corrected member |
|---|---|---|---|---|---|---|
| src/lexer/blocks.rs:41 | each reader counts the run with `take_while` on the borrowed source, which pulls and discards the first non-marker (same at lines 9 and 25) | `"### abc"`: the space at offset 3 is in no token, and the text is `4..7` | the terminator stays in the source, as `next_while_count` does; the `by_real_md_file` test expects `Text 1..19` right after `Heading 0..1` | high, not executed | Scenarios.TerminatorDroppedAsWritten | Scenarios.HeadingThenTextCorrected |
| src/lexer/mod.rs:39-60 | the loop runs while `cur_position + 1 < len`, and a `None` from the source leaves the state unchanged | `"---"`: the reader drains the source while `cur_position` stays 0, so the second `next_token` never returns | return `None` once the source is exhausted; `NextToken`'s contract rules out the non-returning case for the corrected revision | high, not executed | Scenarios.SpinsAfterTrailingBreakAsWritten | Scenarios.TrailingBreakCorrected |

## Left out

- `Display` for `Token` (src/lexer/token.rs:19-27): string formatting only.
- src/lexer/test_util.rs: reads files from the working directory (I/O).
- The `by_real_md_file` test (src/lexer/mod.rs:197-280): its input `test.md` is not part of this model. Only the offsets it expects are used, as evidence for the first finding.
- src/parser/parser.rs and the `BaseLexer` trait in src/lexer/lexer.rs: stubs and signatures without behaviour.
- `from_string` (src/lexer/constructors.rs) is `New`. The `Iterator` impl (src/lexer/iterator.rs) is `NextToken`, and collecting it is `Tokenize`.
- The Windows value of `LINE_ENDING` (src/constants.rs:2-3): the model fixes the non-Windows `"\n"`.
- Non-ASCII input: `raw.len()` counts bytes while offsets count characters. The model treats the two as equal.
- `Peekable`/`Enumerate` machinery: the source is the input plus the offset `next` it yields next. The peek slot is never used in the source.
- `TokenContent::is_single_special_char` is called in mod.rs but not defined in any file shown. The model takes it to hold for exactly `#`, `-` and the backtick, the three characters the following `match` handles.
- `handle_buffer` reads fields (`buffer_type`) and kinds (`CodeFence`, `NewLine`) that the lexer struct and token enum shown do not have. It is modelled as a stand-alone function and is not called by the driver. The type of the `CodeFence` level is not shown, so it is modelled as `nat`.
- Driver.IsLast: requires a non-empty input, because `raw.len() - 1` underflows (a panic) on the empty input; `NextIdx` inherits this.
- `usize` overflow of `start + count` and `idx + 1`: not modelled, because offsets stay below the input length.
- Driver.NextToken: a call that would never return is reported as `Spins` with the state it loops in, rather than being left undefined.
