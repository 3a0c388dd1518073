/** The buffer terminator of src/lexer/buffer.rs, from the design iteration
    in which the lexer accumulates a token's characters in a buffer tagged
    with a category. It is a pure function of the category, the buffer's
    length and the end position `cur_position`. */
module Buffer {
  import opened Tokens
  import Blocks

  /** The minimum-length table: whether a buffer of this category and
      length makes a token at all. */
  predicate Qualifies(kind: TokenContent, bufLen: nat) {
    match kind
    case Heading(_) => true
    case Breaks => bufLen >= 3
    case CodeFence(_) => bufLen >= 3
    case Text => true
    case NewLine(_) => true
    case Code => false
    case EOL => false
  }

  /** How many offsets before the end position a token of this category starts. */
  function Width(kind: TokenContent, bufLen: nat): nat {
    match kind
    case Heading(level) => level as nat
    case CodeFence(level) => level
    case NewLine(eol) => |eol.Chars()|
    case _ => bufLen
  }

  /** `ensure_buf_minimum_len` */
  function EnsureBufMinimumLen(bufLen: nat, len: nat): (enough: bool)
    ensures enough <==> !(bufLen < len)
  {
    bufLen >= len
  }

  /** The subtraction in the branch taken does not go below zero (a `usize`
      underflow panics). */
  predicate NoUnderflow(bufferType: Option<TokenContent>, bufLen: nat, cur: nat) {
    bufferType.Some? && Qualifies(bufferType.value, bufLen) ==> Width(bufferType.value, bufLen) <= cur
  }

  /** `handle_buffer` */
  function HandleBuffer(bufferType: Option<TokenContent>, bufLen: nat, cur: nat): (r: Option<Token>)
    requires NoUnderflow(bufferType, bufLen, cur)
    ensures bufferType.None? ==> r.None?
    ensures r.Some? <==> bufferType.Some? && Qualifies(bufferType.value, bufLen)
    ensures r.Some? ==>
              && r.value.content == bufferType.value
              && r.value.range.WellFormed()
              && r.value.range.end == cur
              && r.value.range.Len() == Width(bufferType.value, bufLen)
  {
    match bufferType
    case None => None
    case Some(kind) =>
      match kind
      case Heading(level) => Some(Token(kind, Range(cur - level as nat, cur)))
      case Breaks =>
        if EnsureBufMinimumLen(bufLen, 3) then Some(Token(kind, Range(cur - bufLen, cur))) else None
      case CodeFence(level) =>
        if EnsureBufMinimumLen(bufLen, 3) then Some(Token(kind, Range(cur - level, cur))) else None
      case Text => Some(Token(kind, Range(cur - bufLen, cur)))
      case NewLine(eol) => Some(Token(kind, Range(cur - |eol.Chars()|, cur)))
      case _ => None
  }

  /** A newline token is one offset wide for `\n` and two for `\r\n`. */
  lemma NewLineWidths(cur: nat, bufLen: nat)
    requires cur >= 2
    ensures HandleBuffer(Some(NewLine(Lf)), bufLen, cur) == Some(Token(NewLine(Lf), Range(cur - 1, cur)))
    ensures HandleBuffer(Some(NewLine(CrLf)), bufLen, cur) == Some(Token(NewLine(CrLf), Range(cur - 2, cur)))
  {
  }

  /** The code-fence gate looks at the buffer length, not at the level: a
      level-5 fence in a 2-character buffer is dropped, while a level-1 fence
      in a 3-character buffer makes a 1-offset token. */
  lemma CodeFenceGatedOnBuffer()
    ensures HandleBuffer(Some(CodeFence(5)), 2, 10).None?
    ensures HandleBuffer(Some(CodeFence(1)), 3, 10) == Some(Token(CodeFence(1), Range(9, 10)))
  {
  }

  /** Buffering a heading run and terminating it right after the run gives
      the token `read_header` builds, as long as the level fits in a `u8`. */
  lemma BufferedHeadingMatchesReader(raw: string, cur: nat, adaptor: Blocks.Adaptor)
    requires cur < |raw|
    requires Blocks.RunLength(raw, cur, '#') < 256
    ensures var n := Blocks.RunLength(raw, cur, '#');
            HandleBuffer(Some(Heading(n as u8)), n, cur + n) == Blocks.ReadHeader(raw, cur, adaptor).token
  {
    var n := Blocks.RunLength(raw, cur, '#');
    var t := Blocks.ReadHeader(raw, cur, adaptor).token.value;
    Blocks.RunEndsUnique(raw, cur, cur + n, t.range.end, '#');
  }

  /** Buffering a dash run and terminating it right after the run agrees with
      `read_breaks`, including when the run is too short. */
  lemma BufferedBreaksMatchesReader(raw: string, cur: nat, adaptor: Blocks.Adaptor)
    requires cur < |raw|
    ensures var n := Blocks.RunLength(raw, cur, '-');
            HandleBuffer(Some(Breaks), n, cur + n) == Blocks.ReadBreaks(raw, cur, adaptor).token
  {
    var n := Blocks.RunLength(raw, cur, '-');
    var r := Blocks.ReadBreaks(raw, cur, adaptor);
    if r.token.Some? {
      Blocks.RunEndsUnique(raw, cur, cur + n, r.token.value.range.end, '-');
    }
  }

  /** Buffering a backtick run as a fence agrees with `read_code_block` on
      whether a token is made and on its range. */
  lemma BufferedFenceMatchesReader(raw: string, cur: nat, adaptor: Blocks.Adaptor)
    requires cur < |raw|
    ensures var n := Blocks.RunLength(raw, cur, '`');
            var fence := HandleBuffer(Some(CodeFence(n)), n, cur + n);
            var code := Blocks.ReadCodeBlock(raw, cur, adaptor).token;
            && (fence.Some? <==> code.Some?)
            && (fence.Some? ==> fence.value.range == code.value.range)
  {
    var n := Blocks.RunLength(raw, cur, '`');
    var r := Blocks.ReadCodeBlock(raw, cur, adaptor);
    if r.token.Some? {
      Blocks.RunEndsUnique(raw, cur, cur + n, r.token.value.range.end, '`');
    }
  }
}
