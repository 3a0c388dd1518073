/** The lexer driver of src/lexer/mod.rs: a state record and the functions
    that move it, with `next_token`'s loop as a recursive function.

    The source iterator (`Peekable<Enumerate<Chars>>`, whose peek slot is
    never used) is the input `raw` together with `next`, the offset of the
    item it yields next. Inputs are taken to be ASCII, so byte length and
    character count agree. */
module Driver {
  import opened Tokens
  import Blocks

  datatype Lexer = Lexer(
    raw: string,
    next: nat,
    curPosition: nat,
    plainTextRange: Option<Range>,
    buffer: string)

  /** The readers and the loop exit as the repository has them, or with the
      two corrections recorded in the README's findings. */
  datatype Revision = AsWritten | Corrected {
    function Adaptor(): Blocks.Adaptor {
      if AsWritten? then Blocks.TakeWhile else Blocks.NextIf
    }
  }

  /** What one piece of the driver returns: maybe a token, and the new state. */
  datatype Step = Step(token: Option<Token>, lexer: Lexer)

  /** The outcome of one `next_token` call. `Spins` is a state in which the
      loop's body leaves everything unchanged while its guard still holds. */
  datatype Poll =
    | Emitted(token: Token, lexer: Lexer)
    | Exhausted(lexer: Lexer)
    | Spins(lexer: Lexer)

  /** The invariant the driver keeps between calls. */
  predicate Valid(lx: Lexer) {
    && lx.next <= |lx.raw|
    && (if lx.next == 0 then lx.curPosition == 0 else lx.curPosition < lx.next)
    && (lx.plainTextRange.Some? ==>
          var r := lx.plainTextRange.value;
          r.start <= lx.curPosition && r.start < r.end <= lx.next)
    && (lx.buffer == LINE_ENDING ==> lx.curPosition < |lx.raw| && lx.raw[lx.curPosition] == '\n')
  }

  /** A token's range lies inside the input and covers characters of its kind:
      a heading, break or code run is a maximal run of its marker (only
      heading runs may be shorter than three), an `EOL` is one `\n`, a
      `Text` range is non-empty. */
  predicate Denotes(raw: string, t: Token) {
    var r := t.range;
    match t.content
    case Heading(level) =>
      Blocks.RunEnds(raw, r.start, r.end, '#') && raw[r.start] == '#' && level as int == (r.end - r.start) % 256
    case Breaks =>
      Blocks.RunEnds(raw, r.start, r.end, '-') && raw[r.start] == '-' && r.end - r.start >= 3
    case Code =>
      Blocks.RunEnds(raw, r.start, r.end, '`') && raw[r.start] == '`' && r.end - r.start >= 3
    case EOL =>
      r.end == r.start + 1 <= |raw| && raw[r.start] == '\n'
    case Text =>
      r.start < r.end <= |raw|
    case CodeFence(_) => false
    case NewLine(_) => false
  }

  /** `new`: nothing consumed, no plain text, an empty buffer. */
  function New(raw: string): (lx: Lexer)
    ensures Valid(lx) && lx.raw == raw
    ensures lx.next == 0 && lx.curPosition == 0
    ensures lx.plainTextRange.None? && lx.buffer == []
  {
    Lexer(raw, 0, 0, None, [])
  }

  /** `is_last` (`raw.len() - 1` underflows on the empty input). */
  function IsLast(lx: Lexer): (last: bool)
    requires |lx.raw| >= 1
    ensures last <==> lx.curPosition + 1 == |lx.raw|
  {
    lx.curPosition == |lx.raw| - 1
  }

  /** `next_idx`: the offset one past the end, once the cursor is on the last character. */
  function NextIdx(lx: Lexer): (r: Option<nat>)
    requires |lx.raw| >= 1
    ensures r.Some? <==> lx.curPosition + 1 == |lx.raw|
    ensures r.Some? ==> r.value == |lx.raw|
  {
    if IsLast(lx) then Some(lx.curPosition + 1) else None
  }

  /** `handled_special_char`: drops the plain-text range and keeps the invariant. */
  function HandledSpecialChar(lx: Lexer): (r: Lexer)
    ensures r.plainTextRange.None?
    ensures r.raw == lx.raw && r.next == lx.next && r.curPosition == lx.curPosition && r.buffer == lx.buffer
    ensures Valid(lx) ==> Valid(r)
  {
    lx.(plainTextRange := None)
  }

  /** `clear_buffer`: empties the buffer and keeps the invariant. */
  function ClearBuffer(lx: Lexer): (r: Lexer)
    ensures r.buffer == []
    ensures r.raw == lx.raw && r.next == lx.next && r.curPosition == lx.curPosition
    ensures r.plainTextRange == lx.plainTextRange
    ensures Valid(lx) ==> Valid(r)
  {
    lx.(buffer := [])
  }

  /** `flush_buffer`: a buffer holding exactly the line ending becomes an
      `EOL` token at the cursor and is emptied; any other state is left alone. */
  function FlushBuffer(lx: Lexer): (r: Step)
    ensures r.token.Some? <==> lx.buffer == LINE_ENDING
    ensures r.token.Some? ==>
              && r.token.value.content == EOL
              && r.token.value.range == Range(lx.curPosition, lx.curPosition + 1)
              && r.lexer == lx.(buffer := [])
    ensures r.token.None? ==> r.lexer == lx
    ensures Valid(lx) && r.token.Some? ==> Denotes(lx.raw, r.token.value)
  {
    if lx.buffer != [] && lx.buffer == LINE_ENDING then
      var idx := lx.curPosition;
      Step(Some(Token(EOL, Range(idx, idx + 1))), ClearBuffer(lx))
    else
      Step(None, lx)
  }

  /** `continue_plain_text`: an open plain-text range now ends at the cursor;
      an absent one stays absent. */
  function ContinuePlainText(lx: Lexer): (r: Lexer)
    ensures r.plainTextRange.Some? <==> lx.plainTextRange.Some?
    ensures r.plainTextRange.Some? ==>
              r.plainTextRange.value == Range(lx.plainTextRange.value.start, lx.curPosition)
    ensures r == lx.(plainTextRange := r.plainTextRange)
  {
    match lx.plainTextRange
    case Some(range) => lx.(plainTextRange := Some(Range(range.start, lx.curPosition)))
    case None => lx
  }

  /** `record_plain_text`: the plain-text range now ends just after the
      cursor; it starts where it started before, or at the cursor when there
      was none. */
  function RecordPlainText(lx: Lexer): (r: Lexer)
    ensures r.plainTextRange.Some?
    ensures r.plainTextRange.value.end == lx.curPosition + 1
    ensures r.plainTextRange.value.start ==
              (if lx.plainTextRange.Some? then lx.plainTextRange.value.start else lx.curPosition)
    ensures r == lx.(plainTextRange := r.plainTextRange)
  {
    var idx := lx.curPosition;
    match lx.plainTextRange
    case Some(range) => lx.(plainTextRange := Some(Range(range.start, idx + 1)))
    case None => lx.(plainTextRange := Some(Range(idx, idx + 1)))
  }

  /** The first half of `record_buffer`: `\r` and `\n` always go to the
      buffer (closing the plain text at the cursor if the buffer was empty);
      any other character goes to a non-empty buffer, and otherwise extends
      the plain text. */
  function Accumulate(lx: Lexer, c: char): (r: Lexer)
    ensures r.raw == lx.raw && r.next == lx.next && r.curPosition == lx.curPosition
    ensures r.buffer == (if IsLineBreakChar(c) || lx.buffer != [] then lx.buffer + [c] else lx.buffer)
    ensures IsLineBreakChar(c) && lx.buffer == [] ==> r.plainTextRange == ContinuePlainText(lx).plainTextRange
    ensures !IsLineBreakChar(c) && lx.buffer == [] ==> r.plainTextRange == RecordPlainText(lx).plainTextRange
    ensures lx.buffer != [] ==> r.plainTextRange == lx.plainTextRange
  {
    if IsLineBreakChar(c) then
      var lx' := if lx.buffer == [] then ContinuePlainText(lx) else lx;
      lx'.(buffer := lx'.buffer + [c])
    else if lx.buffer != [] then
      lx.(buffer := lx.buffer + [c])
    else
      RecordPlainText(lx)
  }

  /** `record_buffer`: accumulate `c`, then ask `closure` about the buffer and
      the plain-text range; a token it returns is passed on and the range is
      dropped. */
  function RecordBuffer(lx: Lexer, c: char, closure: (string, Option<Range>) -> Option<Token>): (r: Step)
    ensures var staged := Accumulate(lx, c);
            && r.token == closure(staged.buffer, staged.plainTextRange)
            && r.lexer.buffer == staged.buffer
            && (r.token.Some? ==> r.lexer == HandledSpecialChar(staged))
            && (r.token.None? ==> r.lexer == staged)
  {
    var lx' := Accumulate(lx, c);
    match closure(lx'.buffer, lx'.plainTextRange)
    case Some(result) => Step(Some(result), HandledSpecialChar(lx'))
    case None => Step(None, lx')
  }

  /** The closure `record_plain_char` hands to `record_buffer`: its two arms
      come down to one condition, and what it returns is always the open
      range as `Text`. */
  function EmitPlainText(len: nat, buffer: string, plainTextRange: Option<Range>): (r: Option<Token>)
    ensures r.Some? <==> plainTextRange.Some? && (buffer == LINE_ENDING || plainTextRange.value.end == len)
    ensures r.Some? ==> r.value == Token(Text, plainTextRange.value)
  {
    if buffer == LINE_ENDING then
      match plainTextRange
      case Some(range) => Some(Token(Text, range))
      case None => None
    else if plainTextRange.Some? && plainTextRange.value.end == len then
      Some(Token(Text, plainTextRange.value))
    else
      None
  }

  /** `record_plain_char`: emits the plain text as a `Text` token once the
      buffer holds exactly the line ending, or once the plain text reaches
      the end of the input. */
  function RecordPlainChar(lx: Lexer, c: char, len: nat): (r: Step)
    ensures var staged := Accumulate(lx, c);
            && (r.token.Some? <==>
                  staged.plainTextRange.Some? &&
                  (staged.buffer == LINE_ENDING || staged.plainTextRange.value.end == len))
            && (r.token.Some? ==>
                  && r.token.value == Token(Text, staged.plainTextRange.value)
                  && r.lexer == staged.(plainTextRange := None))
            && (r.token.None? ==> r.lexer == staged)
  {
    RecordBuffer(lx, c, (buffer, range) => EmitPlainText(len, buffer, range))
  }

  /** The reader `next_token` dispatches to for the marker at `idx`. */
  function ReadMarker(raw: string, idx: nat, rev: Revision): (r: Blocks.Read)
    requires idx < |raw| && IsSingleSpecialChar(raw[idx])
    ensures idx < r.next <= |raw|
    ensures r.token.Some? ==> r.token.value.range.start == idx && Denotes(raw, r.token.value)
    ensures raw[idx] == '#' ==> r.token.Some? && r.token.value.content.Heading?
    ensures raw[idx] == '-' ==> r.token.Some? ==> r.token.value.content == Breaks
    ensures raw[idx] == '`' ==> r.token.Some? ==> r.token.value.content == Code
    ensures raw[idx] != '#' ==>
              (r.token.Some? <==> idx + 2 < |raw| && raw[idx + 1] == raw[idx] && raw[idx + 2] == raw[idx])
    ensures r.next == Blocks.SourceAfter(raw, idx + Blocks.RunLength(raw, idx, raw[idx]), rev.Adaptor())
  {
    var c := raw[idx];
    if c == '#' then Blocks.ReadHeader(raw, idx, rev.Adaptor())
    else if c == '-' then Blocks.ReadBreaks(raw, idx, rev.Adaptor())
    else Blocks.ReadCodeBlock(raw, idx, rev.Adaptor())
  }

  /** Recording a plain character at the cursor keeps the invariant, and the
      `Text` token it may emit lies inside the input. */
  lemma RecordPlainCharValid(lx: Lexer, c: char)
    requires 0 < lx.next <= |lx.raw| && lx.curPosition + 1 == lx.next && lx.raw[lx.curPosition] == c
    requires lx.plainTextRange.Some? ==>
               lx.plainTextRange.value.start < lx.plainTextRange.value.end <= lx.curPosition
    requires lx.buffer != LINE_ENDING
    ensures var r := RecordPlainChar(lx, c, |lx.raw|);
            && Valid(r.lexer) && r.lexer.raw == lx.raw
            && r.lexer.next == lx.next && r.lexer.curPosition == lx.curPosition
            && (r.token.Some? ==> Denotes(lx.raw, r.token.value))
  {
    var staged := Accumulate(lx, c);
    if lx.buffer != [] {
      assert staged.plainTextRange == lx.plainTextRange;
    } else if IsLineBreakChar(c) {
      assert staged.plainTextRange == ContinuePlainText(lx).plainTextRange;
      assert staged.buffer == [c];
    } else {
      assert staged.plainTextRange == RecordPlainText(lx).plainTextRange;
    }
  }

  /** The `Some((idx, next))` arm of `next_token`'s loop: pull one character,
      then either read a marker run or record a plain character. */
  function Consume(lx: Lexer, rev: Revision): (r: Step)
    requires Valid(lx) && lx.next < |lx.raw| && lx.buffer != LINE_ENDING
    ensures r.lexer.raw == lx.raw && Valid(r.lexer)
    ensures r.lexer.curPosition == lx.next && r.lexer.next > lx.next
    ensures r.token.Some? ==> Denotes(lx.raw, r.token.value)
  {
    var idx := lx.next;
    var c := lx.raw[idx];
    var lx1 := lx.(curPosition := idx, next := idx + 1);
    if IsSingleSpecialChar(c) then
      var read := ReadMarker(lx.raw, idx, rev);
      Step(read.token, lx1.(next := read.next))
    else
      RecordPlainCharValid(lx1, c);
      RecordPlainChar(lx1, c, |lx.raw|)
  }

  /** One pass through the body of `next_token`'s loop: flush a pending line
      ending, otherwise pull from the source if it has anything left. */
  function Iterate(lx: Lexer, rev: Revision): (r: Step)
    requires Valid(lx)
    ensures r.lexer.raw == lx.raw && Valid(r.lexer)
    ensures r.token.Some? ==> Denotes(lx.raw, r.token.value) && Progress(lx, r.lexer)
    ensures r.token.None? ==> r.lexer.next > lx.next || (lx.next == |lx.raw| && r.lexer == lx)
  {
    var flushed := FlushBuffer(lx);
    if flushed.token.Some? then flushed
    else if lx.next == |lx.raw| then Step(None, lx)
    else Consume(lx, rev)
  }

  /** `lx'` is strictly further along than `lx`: the source moved on, or a
      pending line ending was flushed. */
  predicate Progress(lx: Lexer, lx': Lexer) {
    || lx'.next > lx.next
    || (lx'.next == lx.next && lx.buffer == LINE_ENDING && lx'.buffer == [])
  }

  /** The guard of `next_token`'s loop holds and its body changes nothing. */
  predicate Stuck(lx: Lexer) {
    Valid(lx) && lx.curPosition + 1 < |lx.raw| && Iterate(lx, AsWritten) == Step(None, lx)
  }

  /** `next_token`. As written, the loop keeps running once the source is
      exhausted before the cursor reaches the last offset; corrected, it
      stops there. */
  function NextToken(lx: Lexer, rev: Revision): (r: Poll)
    requires Valid(lx)
    ensures r.lexer.raw == lx.raw && Valid(r.lexer)
    ensures lx.curPosition + 1 >= |lx.raw| ==> r == Exhausted(lx)
    ensures r.Emitted? ==> Denotes(lx.raw, r.token) && Progress(lx, r.lexer)
    ensures r.Spins? ==> rev == AsWritten && Stuck(r.lexer)
    ensures r.Exhausted? ==>
              r.lexer.curPosition + 1 >= |lx.raw| || (rev.Corrected? && r.lexer.next == |lx.raw|)
    decreases |lx.raw| - lx.next
  {
    if lx.curPosition + 1 >= |lx.raw| then
      Exhausted(lx)
    else
      var s := Iterate(lx, rev);
      if s.token.Some? then
        Emitted(s.token.value, s.lexer)
      else if s.lexer.next == lx.next then
        assert lx.next == |lx.raw|;
        if rev.AsWritten? then Spins(lx) else Exhausted(lx)
      else
        NextToken(s.lexer, rev)
  }

  /** `lx'` is reached from `lx` by loop passes that emit nothing, each
      taken while the guard holds and each moving the source on. */
  predicate Silent(lx: Lexer, lx': Lexer, rev: Revision)
    requires Valid(lx)
    decreases |lx.raw| - lx.next
  {
    || lx' == lx
    || (&& lx.curPosition + 1 < |lx.raw|
        && var s := Iterate(lx, rev);
        && s.token.None? && s.lexer.next > lx.next
        && Silent(s.lexer, lx', rev))
  }

  /** What `next_token` returns is where its loop actually goes: the end of
      the stream or the spinning state is reached by silent passes, and an
      emitted token is the one a single pass yields after silent passes. */
  lemma {:induction false} NextTokenTrace(lx: Lexer, rev: Revision)
    requires Valid(lx)
    ensures var r := NextToken(lx, rev);
            r.Exhausted? || r.Spins? ==> Silent(lx, r.lexer, rev)
    ensures var r := NextToken(lx, rev);
            r.Emitted? ==>
              exists m :: Silent(lx, m, rev) && Valid(m) && m.curPosition + 1 < |m.raw| &&
                          Iterate(m, rev) == Step(Some(r.token), r.lexer)
    decreases |lx.raw| - lx.next
  {
    if lx.curPosition + 1 < |lx.raw| {
      var s := Iterate(lx, rev);
      if s.token.Some? {
        assert Silent(lx, lx, rev);
      } else if s.lexer.next != lx.next {
        NextTokenTrace(s.lexer, rev);
        var r := NextToken(s.lexer, rev);
        assert NextToken(lx, rev) == r;
        if r.Emitted? {
          var m :| Silent(s.lexer, m, rev) && Valid(m) && m.curPosition + 1 < |m.raw| &&
                   Iterate(m, rev) == Step(Some(r.token), r.lexer);
          assert Silent(lx, m, rev);
        } else {
          assert Silent(lx, r.lexer, rev);
        }
      }
    }
  }

  /** Once the cursor is on the last offset (`is_last`), `next_token` yields nothing. */
  lemma LastOffsetEndsStream(lx: Lexer, rev: Revision)
    requires Valid(lx) && |lx.raw| >= 1 && IsLast(lx)
    ensures NextToken(lx, rev) == Exhausted(lx)
  {
  }

  /** A `Text` token closed because it reached the end of the input leaves
      the cursor on the last offset, and `next_idx` is then its end. */
  lemma TextAtEndIsLast(lx: Lexer, c: char)
    requires 0 < lx.next <= |lx.raw| && lx.curPosition + 1 == lx.next && lx.raw[lx.curPosition] == c
    requires lx.plainTextRange.Some? ==>
               lx.plainTextRange.value.start < lx.plainTextRange.value.end <= lx.curPosition
    requires lx.buffer != LINE_ENDING
    ensures var r := RecordPlainChar(lx, c, |lx.raw|);
            r.token.Some? && r.token.value.range.end == |lx.raw| ==>
              IsLast(r.lexer) && NextIdx(r.lexer) == Some(r.token.value.range.end)
  {
  }

  /** Every token the corrected lexer yields from `lx` on, in order. */
  function Drain(lx: Lexer): (tokens: seq<Token>)
    requires Valid(lx)
    ensures forall i :: 0 <= i < |tokens| ==> Denotes(lx.raw, tokens[i])
    ensures tokens == [] <==> NextToken(lx, Corrected).Exhausted?
    ensures tokens != [] ==> tokens[0] == NextToken(lx, Corrected).token
    decreases |lx.raw| - lx.next, if lx.buffer == LINE_ENDING then 1 else 0
  {
    var p := NextToken(lx, Corrected);
    if p.Emitted? then [p.token] + Drain(p.lexer) else []
  }

  /** The whole token stream of `raw` (the `Iterator` impl collected). */
  function Tokenize(raw: string): (tokens: seq<Token>)
    ensures forall i :: 0 <= i < |tokens| ==> Denotes(raw, tokens[i])
    ensures tokens == [] <==> NextToken(New(raw), Corrected).Exhausted?
    ensures tokens != [] ==> tokens[0] == NextToken(New(raw), Corrected).token
  {
    Drain(New(raw))
  }
}
