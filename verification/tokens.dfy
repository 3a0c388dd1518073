/** Tokens produced by the lexer: a kind and a half-open offset range
    into the input (src/lexer/token.rs). The kind is the union of the two
    design iterations found in the lexer: the reader-based driver emits
    `Breaks`, `Heading`, `Code`, `Text` and `EOL`; the buffer terminator
    also knows `CodeFence` and `NewLine`. */
module Tokens {

  datatype Option<+T> = None | Some(value: T)

  /** Rust's `u8`: a heading level is stored through an `as u8` cast. */
  newtype u8 = x: int | 0 <= x < 256

  /** A `Range<usize>`: the offsets `start` up to but excluding `end`. */
  datatype Range = Range(start: nat, end: nat) {
    predicate WellFormed() {
      start <= end
    }

    function Len(): nat
      requires WellFormed()
    {
      end - start
    }
  }

  /** The line ending a `NewLine` token stands for. */
  datatype LineEnding = Lf | CrLf {
    function Chars(): string {
      match this
      case Lf => "\n"
      case CrLf => "\r\n"
    }
  }

  datatype TokenContent =
    | Breaks
    | Heading(level: u8)
    | Code
    | CodeFence(fence: nat)
    | Text
    | EOL
    | NewLine(eol: LineEnding)

  datatype Token = Token(content: TokenContent, range: Range)

  /** The platform line ending, fixed to the non-Windows value. */
  const LINE_ENDING: string := "\n"

  /** The marker characters that start a heading, a break or a code fence. */
  predicate IsSingleSpecialChar(c: char) {
    c == '#' || c == '-' || c == '`'
  }

  predicate IsLineBreakChar(c: char) {
    c == '\r' || c == '\n'
  }
}
